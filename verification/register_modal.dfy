/**
 * The account-creation dialog: its live CPF and phone input masks (chains of
 * regular-expression replacements), its CPF plausibility test, its password
 * rule, the ordered validation chain of its submit handler and the form state
 * that the handlers update.
 */
module RegisterModal {
  import opened Wrappers
  import opened Text
  import opened Checks
  import opened ApiErrors
  import Formatters

  // ---------------------------------------------------------------------------
  // Non-global regular-expression replacements over digit runs
  // ---------------------------------------------------------------------------

  /** `k` digits start at `p`. */
  predicate DigitRunAt(s: string, p: int, k: nat) {
    0 <= p && p + k <= |s| && AllDigits(s[p..p + k])
  }

  /** The leftmost position at or after `from` where `k` digits start: where `/\d{k}/` matches first. */
  function FirstDigitRun(s: string, k: nat, from: nat): (r: Option<nat>)
    ensures r.Some? ==> from <= r.value && DigitRunAt(s, r.value, k)
    ensures r.Some? ==> forall q :: from <= q < r.value ==> !DigitRunAt(s, q, k)
    ensures r.None? ==> forall q :: from <= q ==> !DigitRunAt(s, q, k)
    decreases |s| - from
  {
    if from + k > |s| then None
    else if DigitRunAt(s, from, k) then Some(from)
    else FirstDigitRun(s, k, from + 1)
  }

  /** `t` inserted before position `i`. */
  function InsertAt(s: string, i: nat, t: string): string
    requires i <= |s|
  {
    s[..i] + t + s[i..]
  }

  /** Inserting text without digits leaves the digits alone. */
  lemma InsertKeepsDigits(s: string, i: nat, t: string)
    requires i <= |s| && NoDigits(t)
    ensures Digits(InsertAt(s, i, t)) == Digits(s)
  {
    assert s == s[..i] + s[i..];
    DigitsAppend3(s[..i], t, s[i..]);
    DigitsAppend(s[..i], s[i..]);
  }

  /** `.replace(/(\d{3})(\d)/, "$1.$2")`: a '.' after the first three digits of the first run of four. */
  function InsertDot(s: string): (r: string)
    ensures |s| <= |r| <= |s| + 1
    ensures Digits(r) == Digits(s)
  {
    match FirstDigitRun(s, 4, 0)
    case None => s
    case Some(p) => InsertKeepsDigits(s, p + 3, "."); InsertAt(s, p + 3, ".")
  }

  /**
   * `.replace(/(\d{3})(\d{1,2})$/, "$1-$2")`: when the text ends in five
   * digits a '-' before the last two, else when it ends in four a '-' before
   * the last one (the leftmost match that reaches the end).
   */
  function DashBeforeCheckDigits(s: string): (r: string)
    ensures |s| <= |r| <= |s| + 1
    ensures Digits(r) == Digits(s)
  {
    if DigitRunAt(s, |s| - 5, 5) then InsertKeepsDigits(s, |s| - 2, "-"); InsertAt(s, |s| - 2, "-")
    else if DigitRunAt(s, |s| - 4, 4) then InsertKeepsDigits(s, |s| - 1, "-"); InsertAt(s, |s| - 1, "-")
    else s
  }

  /** `formatCPF` of the dialog: the digit chain above, cut to 14 characters. */
  function FormatCPF(value: string): (r: string)
    ensures |r| <= 14
    ensures Digits(r) <= Digits(value)
  {
    var masked := DashBeforeCheckDigits(InsertDot(InsertDot(Digits(value))));
    DigitsOfPrefix(masked, |SliceTo(masked, 14)|);
    SliceTo(masked, 14)
  }

  /** `.replace(/(\d{2})(\d)/, "($1) $2")`: the first two digits of the first run of three in parentheses. */
  function ParenthesiseAreaCode(s: string): (r: string)
    ensures |s| <= |r| <= |s| + 3
    ensures Digits(r) == Digits(s)
  {
    match FirstDigitRun(s, 3, 0)
    case None => s
    case Some(p) =>
      var closed := InsertAt(s, p + 2, ") ");
      InsertKeepsDigits(s, p + 2, ") ");
      InsertKeepsDigits(closed, p, "(");
      InsertAt(closed, p, "(")
  }

  /** `.replace(/(\d{5})(\d)/, "$1-$2")`: a '-' after the first five digits of the first run of six. */
  function DashAfterFive(s: string): (r: string)
    ensures |s| <= |r| <= |s| + 1
    ensures Digits(r) == Digits(s)
  {
    match FirstDigitRun(s, 6, 0)
    case None => s
    case Some(p) => InsertKeepsDigits(s, p + 5, "-"); InsertAt(s, p + 5, "-")
  }

  /** `formatPhone` of the dialog: the digit chain above, cut to 15 characters. */
  function FormatPhone(value: string): (r: string)
    ensures |r| <= 15
    ensures Digits(r) <= Digits(value)
  {
    var masked := DashAfterFive(ParenthesiseAreaCode(Digits(value)));
    DigitsOfPrefix(masked, |SliceTo(masked, 15)|);
    SliceTo(masked, 15)
  }

  // ---------------------------------------------------------------------------
  // What the masks produce
  // ---------------------------------------------------------------------------

  /** A non-digit at `j` breaks every run that would cover `j`. */
  lemma NoRunThrough(s: string, q: nat, k: nat, j: nat)
    requires q <= j < q + k && j < |s| && !IsDigit(s[j])
    ensures !DigitRunAt(s, q, k)
  {
    if q + k <= |s| {
      assert s[q..q + k][j - q] == s[j];
    }
  }

  /** The leftmost run is at `p` when there is one there and none before. */
  lemma FirstRunAt(s: string, k: nat, p: nat)
    requires DigitRunAt(s, p, k)
    requires forall q :: 0 <= q < p ==> !DigitRunAt(s, q, k)
    ensures FirstDigitRun(s, k, 0) == Some(p)
  {
  }

  /** Eleven digits are masked as `ddd.ddd.ddd-dd`, exactly as the shared CPF formatter does. */
  lemma FormatCPFElevenDigits(value: string)
    requires |Digits(value)| == 11
    ensures var d := Digits(value);
      FormatCPF(value) == d[..3] + "." + d[3..6] + "." + d[6..9] + "-" + d[9..]
    ensures FormatCPF(value) == Formatters.Cpf(value)
    ensures Formatters.CpfMask(FormatCPF(value))
  {
    var d := Digits(value);
    FirstDotOfEleven(d);
    SecondDotOfEleven(d);
    CheckDashOfEleven(d);
    assert SliceTo(d, 11) == d;
  }

  lemma FirstDotOfEleven(d: string)
    requires |d| >= 11 && AllDigits(d)
    ensures InsertDot(d) == d[..3] + "." + d[3..]
  {
    assert DigitRunAt(d, 0, 4);
    FirstRunAt(d, 4, 0);
  }

  lemma SecondDotOfEleven(d: string)
    requires |d| >= 11 && AllDigits(d)
    ensures InsertDot(d[..3] + "." + d[3..]) == d[..3] + "." + d[3..6] + "." + d[6..]
  {
    var s1 := d[..3] + "." + d[3..];
    assert s1[4..8] == d[3..7];
    assert DigitRunAt(s1, 4, 4);
    forall q | 0 <= q < 4 ensures !DigitRunAt(s1, q, 4) {
      NoRunThrough(s1, q, 4, 3);
    }
    FirstRunAt(s1, 4, 4);
    assert s1[..7] == d[..3] + "." + d[3..6];
    assert s1[7..] == d[6..];
  }

  lemma CheckDashOfEleven(d: string)
    requires |d| == 11 && AllDigits(d)
    ensures DashBeforeCheckDigits(d[..3] + "." + d[3..6] + "." + d[6..])
         == d[..3] + "." + d[3..6] + "." + d[6..9] + "-" + d[9..]
  {
    var s2 := d[..3] + "." + d[3..6] + "." + d[6..];
    assert s2[8..13] == d[6..11];
    assert DigitRunAt(s2, 8, 5);
    assert s2[..11] == d[..3] + "." + d[3..6] + "." + d[6..9];
    assert s2[11..] == d[9..];
  }

  /** Eleven digits are masked as `(dd) ddddd-dddd`, exactly as the shared phone formatter does. */
  lemma FormatPhoneElevenDigits(value: string)
    requires |Digits(value)| == 11
    ensures var d := Digits(value);
      FormatPhone(value) == "(" + d[..2] + ") " + d[2..7] + "-" + d[7..]
    ensures FormatPhone(value) == Formatters.Phone(value)
    ensures Formatters.PhoneMask11(FormatPhone(value))
  {
    var d := Digits(value);
    AreaCodeOfEleven(d);
    PhoneDashOfEleven(d);
    assert SliceTo(d, 11) == d;
  }

  lemma AreaCodeOfEleven(d: string)
    requires |d| == 11 && AllDigits(d)
    ensures ParenthesiseAreaCode(d) == "(" + d[..2] + ") " + d[2..]
  {
    assert DigitRunAt(d, 0, 3);
    FirstRunAt(d, 3, 0);
    var closed := InsertAt(d, 2, ") ");
    assert closed[..0] == [] && closed[0..] == closed;
  }

  lemma PhoneDashOfEleven(d: string)
    requires |d| == 11 && AllDigits(d)
    ensures DashAfterFive("(" + d[..2] + ") " + d[2..]) == "(" + d[..2] + ") " + d[2..7] + "-" + d[7..]
  {
    var s1 := "(" + d[..2] + ") " + d[2..];
    assert s1[5..11] == d[2..8];
    assert DigitRunAt(s1, 5, 6);
    forall q | 0 <= q < 5 ensures !DigitRunAt(s1, q, 6) {
      if q == 0 {
        NoRunThrough(s1, q, 6, 0);
      } else if q < 4 {
        NoRunThrough(s1, q, 6, 3);
      } else {
        NoRunThrough(s1, q, 6, 4);
      }
    }
    FirstRunAt(s1, 6, 5);
    assert s1[..10] == "(" + d[..2] + ") " + d[2..7];
    assert s1[10..] == d[7..];
  }

  /** Up to eleven digits, the CPF mask keeps every digit typed. */
  lemma FormatCPFKeepsDigits(value: string)
    requires |Digits(value)| <= 11
    ensures Digits(FormatCPF(value)) == Digits(value)
  {
    var masked := DashBeforeCheckDigits(InsertDot(InsertDot(Digits(value))));
    assert SliceTo(masked, 14) == masked;
  }

  /** Up to eleven digits, the phone mask keeps every digit typed. */
  lemma FormatPhoneKeepsDigits(value: string)
    requires |Digits(value)| <= 11
    ensures Digits(FormatPhone(value)) == Digits(value)
  {
    var masked := DashAfterFive(ParenthesiseAreaCode(Digits(value)));
    assert SliceTo(masked, 15) == masked;
  }

  /** Re-masking what the CPF field shows changes nothing while it holds at most eleven digits. */
  lemma FormatCPFIdempotent(value: string)
    requires |Digits(value)| <= 11
    ensures FormatCPF(FormatCPF(value)) == FormatCPF(value)
  {
    FormatCPFKeepsDigits(value);
  }

  lemma CheckDashOfTwelve(d: string)
    requires |d| == 12 && AllDigits(d)
    ensures DashBeforeCheckDigits(d[..3] + "." + d[3..6] + "." + d[6..])
         == d[..3] + "." + d[3..6] + "." + d[6..10] + "-" + d[10..]
  {
    var s2 := d[..3] + "." + d[3..6] + "." + d[6..];
    assert s2[9..14] == d[7..12];
    assert DigitRunAt(s2, 9, 5);
    assert s2[..12] == d[..3] + "." + d[3..6] + "." + d[6..10];
    assert s2[12..] == d[10..];
  }

  /** Twelve digits are masked as `ddd.ddd.dddd-d`: the dash before the last two, then the cut to 14 characters. */
  lemma FormatCPFTwelveDigits(value: string)
    requires |Digits(value)| == 12
    ensures var d := Digits(value);
      FormatCPF(value) == d[..3] + "." + d[3..6] + "." + d[6..10] + "-" + d[10..11]
  {
    var d := Digits(value);
    var head := d[..3] + "." + d[3..6] + "." + d[6..10] + "-";
    TwelveDigitChain(d);
    PrefixOfAppendSlice(head, d, 10, 1);
  }

  /** Before the cut, twelve digits are masked as `ddd.ddd.dddd-dd`. */
  lemma TwelveDigitChain(d: string)
    requires |d| == 12 && AllDigits(d)
    ensures DashBeforeCheckDigits(InsertDot(InsertDot(d))) == d[..3] + "." + d[3..6] + "." + d[6..10] + "-" + d[10..]
  {
    FirstDotOfEleven(d);
    SecondDotOfEleven(d);
    CheckDashOfTwelve(d);
  }

  /** In `ddd.ddd.dddd-dd` the characters at 11 and 14 are digits. */
  lemma TwelveDigitMaskShape(d: string)
    requires |d| == 12 && AllDigits(d)
    ensures var masked := d[..3] + "." + d[3..6] + "." + d[6..10] + "-" + d[10..];
      |masked| == 15 && IsDigit(masked[11]) && AllDigits(masked[14..])
  {
    var head := d[..3] + "." + d[3..6] + "." + d[6..10];
    assert head[11] == d[9];
    var masked := head + "-" + d[10..];
    assert masked[11] == head[11];
    assert masked[14..] == d[11..];
  }

  /** Cutting after `k` characters of the appended slice. */
  lemma PrefixOfAppendSlice(x: string, y: string, i: nat, k: nat)
    requires i + k <= |y|
    ensures (x + y[i..])[..|x| + k] == x + y[i..i + k]
  {
  }

  /**
   * The field has no length limit, so a twelfth digit can be typed. The mask
   * then leaves four digits before the dash, and the next keystroke's
   * re-masking moves the dash back after three: beyond eleven digits the CPF
   * mask is not stable.
   */
  lemma FormatCPFTwelveDigitsNotStable(value: string)
    requires |Digits(value)| == 12
    ensures FormatCPF(FormatCPF(value)) != FormatCPF(value)
  {
    var d := Digits(value);
    var masked := DashBeforeCheckDigits(InsertDot(InsertDot(d)));
    TwelveDigitChain(d);
    TwelveDigitMaskShape(d);
    DigitsOfCut(masked, 14);
    assert FormatCPF(value) == masked[..14];
    ElevenDigitMaskDash(masked[..14]);
  }

  /** Cutting off a tail of digits drops exactly that many digits. */
  lemma DigitsOfCut(s: string, n: nat)
    requires n <= |s| && AllDigits(s[n..])
    ensures |Digits(s[..n])| == |Digits(s)| - (|s| - n)
  {
    assert s == s[..n] + s[n..];
    DigitsAppend(s[..n], s[n..]);
  }

  /** The mask of eleven digits has its dash at position 11. */
  lemma ElevenDigitMaskDash(value: string)
    requires |Digits(value)| == 11
    ensures |FormatCPF(value)| == 14 && FormatCPF(value)[11] == '-'
  {
    FormatCPFElevenDigits(value);
  }

  /** Re-masking what the phone field shows changes nothing while it holds at most eleven digits. */
  lemma FormatPhoneIdempotent(value: string)
    requires |Digits(value)| <= 11
    ensures FormatPhone(FormatPhone(value)) == FormatPhone(value)
  {
    FormatPhoneKeepsDigits(value);
  }

  // ---------------------------------------------------------------------------
  // CPF, name and password rules
  // ---------------------------------------------------------------------------

  /** `/^(\d)\1{10}$/.test(s)`: eleven copies of one digit. */
  predicate RepeatedDigit(s: string) {
    |s| == 11 && IsDigit(s[0]) && forall i :: 0 < i < 11 ==> s[i] == s[0]
  }

  /** Some digit differs from the first one. */
  predicate MixedDigits(s: string) {
    exists i :: 0 < i < |s| && s[i] != s[0]
  }

  /** `validateCPF`: eleven digits, not all the same (the check digits are not verified). */
  function ValidateCPF(cpf: string): (r: bool)
    ensures r <==> |Digits(cpf)| == 11 && MixedDigits(Digits(cpf))
  {
    var clean := Digits(cpf);
    if |clean| != 11 then false
    else RepeatedIffNotMixed(clean); if RepeatedDigit(clean) then false
    else true
  }

  lemma RepeatedIffNotMixed(s: string)
    requires |s| == 11 && AllDigits(s)
    ensures RepeatedDigit(s) <==> !MixedDigits(s)
  {
    assert IsDigit(s[0]);
  }

  /** Masking an eleven-digit CPF does not change whether it is accepted. */
  lemma ValidateFormattedCPF(value: string)
    requires |Digits(value)| <= 11
    ensures ValidateCPF(FormatCPF(value)) == ValidateCPF(value)
  {
    FormatCPFKeepsDigits(value);
  }

  /** `name.trim().split(" ").length >= 2` holds exactly when the trimmed name has a space. */
  lemma FullNameHasSpace(name: string)
    ensures |Split(Trim(name), ' ')| >= 2 <==> ' ' in Trim(name)
  {
    CountPositive(' ', Trim(name));
  }

  predicate IsAsciiLower(c: char) {
    'a' <= c <= 'z'
  }

  predicate IsAsciiUpper(c: char) {
    'A' <= c <= 'Z'
  }

  /** `t` holds a lower-case letter, an upper-case letter and a digit. */
  predicate HasAllClasses(t: string) {
    (exists i :: 0 <= i < |t| && IsAsciiLower(t[i]))
    && (exists i :: 0 <= i < |t| && IsAsciiUpper(t[i]))
    && (exists i :: 0 <= i < |t| && IsDigit(t[i]))
  }

  /** The first line terminator at or after `p`, or the end: how far `.*` can reach from `p`. */
  function LineEnd(s: string, p: nat): (e: nat)
    requires p <= |s|
    ensures p <= e <= |s|
    ensures forall i :: p <= i < e ==> !IsLineTerminator(s[i])
    ensures e < |s| ==> IsLineTerminator(s[e])
    decreases |s| - p
  {
    if p == |s| || IsLineTerminator(s[p]) then p else LineEnd(s, p + 1)
  }

  /**
   * `/(?=.*[a-z])(?=.*[A-Z])(?=.*\d)/.test(s)`: from some position, each
   * lookahead finds its class before the next line terminator.
   */
  predicate PasswordClasses(s: string) {
    exists p :: 0 <= p <= |s| && HasAllClasses(s[p..LineEnd(s, p)])
  }

  /** On a single line the password rule is simply: some lower-case letter, some upper-case letter, some digit. */
  lemma PasswordClassesSingleLine(s: string)
    requires forall i :: 0 <= i < |s| ==> !IsLineTerminator(s[i])
    ensures PasswordClasses(s) <==> HasAllClasses(s)
  {
    assert LineEnd(s, 0) == |s|;
    assert s[0..|s|] == s;
    if PasswordClasses(s) {
      var p :| 0 <= p <= |s| && HasAllClasses(s[p..LineEnd(s, p)]);
      var t := s[p..LineEnd(s, p)];
      var a :| 0 <= a < |t| && IsAsciiLower(t[a]);
      var b :| 0 <= b < |t| && IsAsciiUpper(t[b]);
      var c :| 0 <= c < |t| && IsDigit(t[c]);
      assert t[a] == s[p + a] && t[b] == s[p + b] && t[c] == s[p + c];
    }
  }

  /** Text without lower-case letters never passes the password rule. */
  lemma NoLowerFailsPassword(s: string)
    requires forall i :: 0 <= i < |s| ==> !IsAsciiLower(s[i])
    ensures !PasswordClasses(s)
  {
  }

  /** Everything the phone mask emits is a digit or one of "(", ")", " ", "-". */
  predicate PhoneText(s: string) {
    forall i :: 0 <= i < |s| ==> IsDigit(s[i]) || s[i] in "() -"
  }

  lemma InsertKeepsPhoneText(s: string, i: nat, t: string)
    requires i <= |s| && PhoneText(s) && PhoneText(t)
    ensures PhoneText(InsertAt(s, i, t))
  {
    var r := InsertAt(s, i, t);
    forall j | 0 <= j < |r| ensures IsDigit(r[j]) || r[j] in "() -" {
      if j < i {
        assert r[j] == s[j];
      } else if j < i + |t| {
        assert r[j] == t[j - i];
      } else {
        assert r[j] == s[j - |t|];
      }
    }
  }

  /** The phone mask never emits a lower-case letter. */
  lemma FormatPhoneText(value: string)
    ensures PhoneText(FormatPhone(value))
  {
    var d := Digits(value);
    ParenthesiseKeepsPhoneText(d);
    DashAfterFiveKeepsPhoneText(ParenthesiseAreaCode(d));
  }

  lemma ParenthesiseKeepsPhoneText(s: string)
    requires PhoneText(s)
    ensures PhoneText(ParenthesiseAreaCode(s))
  {
    match FirstDigitRun(s, 3, 0)
    case None =>
    case Some(p) =>
      InsertKeepsPhoneText(s, p + 2, ") ");
      InsertKeepsPhoneText(InsertAt(s, p + 2, ") "), p, "(");
  }

  lemma DashAfterFiveKeepsPhoneText(s: string)
    requires PhoneText(s)
    ensures PhoneText(DashAfterFive(s))
  {
    match FirstDigitRun(s, 6, 0)
    case None =>
    case Some(p) =>
      InsertKeepsPhoneText(s, p + 5, "-");
  }

  // ---------------------------------------------------------------------------
  // The submit handler's validation chain
  // ---------------------------------------------------------------------------

  datatype RegisterData = RegisterData(
    name: string, email: string, cpf: string, phone: string, password: string, confirmPassword: string)

  const EmptyData := RegisterData("", "", "", "", "", "")

  /** The inputs wired to `handleChange`, which stores the raw value under the input's name. */
  datatype TextField = NameField | EmailField | PasswordField | ConfirmPasswordField

  function SetField(d: RegisterData, field: TextField, value: string): (r: RegisterData)
    ensures field.NameField? ==> r == d.(name := value)
    ensures field.EmailField? ==> r == d.(email := value)
    ensures field.PasswordField? ==> r == d.(password := value)
    ensures field.ConfirmPasswordField? ==> r == d.(confirmPassword := value)
    ensures r.cpf == d.cpf && r.phone == d.phone
  {
    match field
    case NameField => d.(name := value)
    case EmailField => d.(email := value)
    case PasswordField => d.(password := value)
    case ConfirmPasswordField => d.(confirmPassword := value)
  }

  const NameMissing := "Por favor, insira seu nome completo"
  const NameIncomplete := "Por favor, insira seu nome completo (nome e sobrenome)"
  const EmailMissing := "Por favor, insira seu email"
  const EmailInvalid := "Por favor, insira um email válido"
  const CpfInvalid := "Por favor, insira um CPF válido"
  const PhoneInvalid := "Por favor, insira um telefone válido"
  const PasswordShort := "A senha deve ter no mínimo 8 caracteres"
  const PasswordWeak := "A senha deve conter letras maiúsculas, minúsculas e números"
  const PasswordMismatch := "As senhas não correspondem"
  const TermsRequired := "Você deve aceitar os termos e condições"
  const RegisterFailed := "Erro ao criar conta. Tente novamente."

  /** The checks of `handleSubmit`, in order, each with its message. */
  function RegisterChecks(d: RegisterData, agreedTerms: bool): seq<Check> {
    [ Check(Trim(d.name) != "", NameMissing),
      Check(|Split(Trim(d.name), ' ')| >= 2, NameIncomplete),
      Check(d.email != "", EmailMissing),
      Check(ValidEmail(d.email), EmailInvalid),
      Check(ValidateCPF(d.cpf), CpfInvalid),
      Check(d.phone != "" && |Digits(d.phone)| >= 10, PhoneInvalid),
      Check(|d.password| >= 8, PasswordShort),
      Check(PasswordClasses(d.password), PasswordWeak),
      Check(d.password == d.confirmPassword, PasswordMismatch),
      Check(agreedTerms, TermsRequired) ]
  }

  /** What the form accepts, stated once per field. */
  predicate Acceptable(d: RegisterData, agreedTerms: bool) {
    ' ' in Trim(d.name)
    && ValidEmail(d.email)
    && ValidateCPF(d.cpf)
    && |Digits(d.phone)| >= 10
    && |d.password| >= 8 && PasswordClasses(d.password)
    && d.confirmPassword == d.password
    && agreedTerms
  }

  /**
   * The message `handleSubmit` shows, or None when it goes on to register:
   * None exactly for acceptable data, and the first failing check otherwise.
   */
  function Validate(d: RegisterData, agreedTerms: bool): Option<string>
  {
    FirstFailure(RegisterChecks(d, agreedTerms))
  }

  /** The name is checked first: a blank name, then a name of one word, whatever the other fields hold. */
  lemma ValidateChecksNameFirst(d: RegisterData, agreedTerms: bool)
    ensures Trim(d.name) == "" ==> Validate(d, agreedTerms) == Some(NameMissing)
    ensures Trim(d.name) != "" && ' ' !in Trim(d.name) ==> Validate(d, agreedTerms) == Some(NameIncomplete)
  {
    var checks := RegisterChecks(d, agreedTerms);
    if Trim(d.name) == "" {
      FirstFailureAt(checks, 0);
    } else if ' ' !in Trim(d.name) {
      FullNameHasSpace(d.name);
      FirstFailureAt(checks, 1);
    }
  }

  /** The chain lets exactly the acceptable data through. */
  lemma ValidateAcceptsExactly(d: RegisterData, agreedTerms: bool)
    ensures Validate(d, agreedTerms) == None <==> Acceptable(d, agreedTerms)
  {
    AllPassIffAcceptable(d, agreedTerms);
  }

  /** Every check of the chain passes exactly for acceptable data. */
  lemma AllPassIffAcceptable(d: RegisterData, agreedTerms: bool)
    ensures var checks := RegisterChecks(d, agreedTerms);
      (forall i :: 0 <= i < |checks| ==> checks[i].passed) <==> Acceptable(d, agreedTerms)
  {
    var checks := RegisterChecks(d, agreedTerms);
    FullNameHasSpace(d.name);
    if ' ' in Trim(d.name) {
      assert Trim(d.name) != "";
    }
    if ValidEmail(d.email) {
      assert d.email != [];
    }
    AllTen(checks);
  }

  /** Ten checks all pass when each of them does. */
  lemma AllTen(checks: seq<Check>)
    requires |checks| == 10
    ensures (forall i :: 0 <= i < |checks| ==> checks[i].passed) <==>
      checks[0].passed && checks[1].passed && checks[2].passed && checks[3].passed && checks[4].passed
      && checks[5].passed && checks[6].passed && checks[7].passed && checks[8].passed && checks[9].passed
  {
  }

  // ---------------------------------------------------------------------------
  // The call to `register`
  // ---------------------------------------------------------------------------

  /** The credentials `register(name, email, cpf, password)` forwards to the authentication service. */
  datatype RegisterRequest = RegisterRequest(name: string, email: string, cpf: string, password: string)

  /** How `register` binds positional arguments: the first four, anything after them dropped. */
  function BindRegister(args: seq<string>): RegisterRequest
    requires |args| >= 4
  {
    RegisterRequest(args[0], args[1], args[2], args[3])
  }

  /** The arguments `handleSubmit` passes as written: the phone sits in the password's place. */
  function RegisterArgsAsWritten(d: RegisterData): seq<string> {
    [d.name, d.email, d.cpf, d.phone, d.password]
  }

  /** The arguments the declared signature expects: name, e-mail, CPF, password. */
  function RegisterArgs(d: RegisterData): seq<string> {
    [d.name, d.email, d.cpf, d.password]
  }

  /**
   * As written, the account is created with the masked phone as its password,
   * which never satisfies the form's own password rule, while the password the
   * form checked is dropped.
   */
  lemma AsWrittenSendsPhoneAsPassword(d: RegisterData, phoneTyped: string)
    requires d.phone == FormatPhone(phoneTyped)
    ensures BindRegister(RegisterArgsAsWritten(d)).password == d.phone
    ensures !PasswordClasses(BindRegister(RegisterArgsAsWritten(d)).password)
    ensures Acceptable(d, true) ==> BindRegister(RegisterArgsAsWritten(d)).password != d.password
  {
    PhoneFailsPassword(phoneTyped);
    if Acceptable(d, true) {
      assert PasswordClasses(d.password);
    }
  }

  /** No text the phone mask produces passes the password rule: it has no lower-case letter. */
  lemma PhoneFailsPassword(phoneTyped: string)
    ensures !PasswordClasses(FormatPhone(phoneTyped))
  {
    var phone := FormatPhone(phoneTyped);
    FormatPhoneText(phoneTyped);
    forall i | 0 <= i < |phone| ensures !IsAsciiLower(phone[i]) {
      assert IsDigit(phone[i]) || phone[i] in "() -";
    }
    NoLowerFailsPassword(phone);
  }

  /** With the arguments in declared order, the account gets exactly the password the form accepted. */
  lemma RegisterSendsCheckedPassword(d: RegisterData, agreedTerms: bool)
    requires Validate(d, agreedTerms) == None
    ensures BindRegister(RegisterArgs(d)) == RegisterRequest(d.name, d.email, d.cpf, d.password)
    ensures |BindRegister(RegisterArgs(d)).password| >= 8
    ensures PasswordClasses(BindRegister(RegisterArgs(d)).password)
    ensures BindRegister(RegisterArgs(d)).password == d.confirmPassword
  {
    ValidateAcceptsExactly(d, agreedTerms);
  }

  // ---------------------------------------------------------------------------
  // The dialog's state
  // ---------------------------------------------------------------------------

  class Form {
    var formData: RegisterData
    var error: string
    var agreedTerms: bool
    var showPassword: bool
    var showConfirmPassword: bool

    constructor()
      ensures formData == EmptyData && error == "" && !agreedTerms
      ensures !showPassword && !showConfirmPassword
    {
      formData := EmptyData;
      error := "";
      agreedTerms := false;
      showPassword := false;
      showConfirmPassword := false;
    }

    /** `handleChange`: store the raw value and clear the error. */
    method HandleChange(field: TextField, value: string)
      modifies this
      ensures formData == SetField(old(formData), field, value) && error == ""
      ensures agreedTerms == old(agreedTerms)
      ensures showPassword == old(showPassword) && showConfirmPassword == old(showConfirmPassword)
    {
      formData := SetField(formData, field, value);
      error := "";
    }

    /** `handleCPFChange`: store the masked value and clear the error. */
    method HandleCPFChange(value: string)
      modifies this
      ensures formData == old(formData).(cpf := FormatCPF(value)) && error == ""
      ensures agreedTerms == old(agreedTerms)
      ensures showPassword == old(showPassword) && showConfirmPassword == old(showConfirmPassword)
    {
      formData := formData.(cpf := FormatCPF(value));
      error := "";
    }

    /** `handlePhoneChange`: store the masked value and clear the error. */
    method HandlePhoneChange(value: string)
      modifies this
      ensures formData == old(formData).(phone := FormatPhone(value)) && error == ""
      ensures agreedTerms == old(agreedTerms)
      ensures showPassword == old(showPassword) && showConfirmPassword == old(showConfirmPassword)
    {
      formData := formData.(phone := FormatPhone(value));
      error := "";
    }

    /** The terms checkbox: it does not clear the error. */
    method SetAgreedTerms(checked: bool)
      modifies this
      ensures agreedTerms == checked
      ensures formData == old(formData) && error == old(error)
      ensures showPassword == old(showPassword) && showConfirmPassword == old(showConfirmPassword)
    {
      agreedTerms := checked;
    }

    /** The eye buttons: each flips the visibility of its own field. */
    method TogglePassword(confirm: bool)
      modifies this
      ensures !confirm ==> showPassword == !old(showPassword) && showConfirmPassword == old(showConfirmPassword)
      ensures confirm ==> showConfirmPassword == !old(showConfirmPassword) && showPassword == old(showPassword)
      ensures formData == old(formData) && error == old(error) && agreedTerms == old(agreedTerms)
    {
      if confirm {
        showConfirmPassword := !showConfirmPassword;
      } else {
        showPassword := !showPassword;
      }
    }

    /**
     * `handleSubmit`, with `registered` the settled outcome of `register`:
     * the first failing check sets the error and nothing is sent; otherwise the
     * request is sent, and on success the form is emptied and the dialog closes,
     * while a rejection shows the error's message or the generic one. The
     * request is the corrected four-argument call (name, e-mail, CPF, password);
     * the call as written binds the phone to the password instead, which
     * `AsWrittenSendsPhoneAsPassword` states.
     */
    method HandleSubmit(registered: Outcome<()>) returns (sent: Option<RegisterRequest>, closed: bool)
      modifies this
      ensures Validate(old(formData), old(agreedTerms)).Some? ==>
                sent == None && !closed && error == Validate(old(formData), old(agreedTerms)).value
                && formData == old(formData) && agreedTerms == old(agreedTerms)
      ensures Validate(old(formData), old(agreedTerms)) == None ==>
                sent == Some(RegisterRequest(old(formData).name, old(formData).email, old(formData).cpf, old(formData).password))
      ensures Validate(old(formData), old(agreedTerms)) == None && registered.Returns? ==>
                closed && formData == EmptyData && !agreedTerms && error == ""
      ensures Validate(old(formData), old(agreedTerms)) == None && registered.Throws? ==>
                !closed && formData == old(formData) && agreedTerms == old(agreedTerms)
                && error == MessageOr(registered.reason, RegisterFailed)
      ensures showPassword == old(showPassword) && showConfirmPassword == old(showConfirmPassword)
    {
      var d, agreed := formData, agreedTerms;
      error := "";
      var failure := Validate(d, agreed);
      if failure.Some? {
        error := failure.value;
        return None, false;
      }
      sent := Some(BindRegister(RegisterArgs(d)));
      match registered
      case Returns(_) =>
        formData := EmptyData;
        agreedTerms := false;
        closed := true;
      case Throws(reason) =>
        error := MessageOr(reason, RegisterFailed);
        closed := false;
    }
  }

  /** After a successful registration the emptied form stops at the first check. */
  lemma EmptyFormAsksForName(agreedTerms: bool)
    ensures Validate(EmptyData, agreedTerms) == Some(NameMissing)
  {
    assert Trim("") == "";
    ValidateChecksNameFirst(EmptyData, agreedTerms);
  }
}
