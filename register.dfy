/** The four-step registration wizard: the form, the two shape checks on
    the e-mail address and the French phone number, the validation of each
    step, and the moves between steps. The sign-up and login requests of the
    last step are one outcome parameter. */
module Register {
  import opened Host
  import opened Text

  // ----- the form -----

  datatype Field =
    | Name | Email | Phone | Password | ConfirmPassword
    | BloodType | HasDiabetes | DiabetesType | TakesMedicine | MedicineType
  {
    /** The key of the field in `formData`, which the "required" message names. */
    function Key(): string {
      match this
      case Name => "name"
      case Email => "email"
      case Phone => "phone"
      case Password => "password"
      case ConfirmPassword => "confirmPassword"
      case BloodType => "bloodType"
      case HasDiabetes => "hasDiabetes"
      case DiabetesType => "diabetesType"
      case TakesMedicine => "takesMedicine"
      case MedicineType => "medicineType"
    }
  }

  datatype FormData = FormData(
    name: string, email: string, phone: string, password: string, confirmPassword: string,
    bloodType: string, hasDiabetes: string, diabetesType: string,
    takesMedicine: string, medicineType: string)
  {
    /** `formData[field]`. */
    function Get(f: Field): string {
      match f
      case Name => name
      case Email => email
      case Phone => phone
      case Password => password
      case ConfirmPassword => confirmPassword
      case BloodType => bloodType
      case HasDiabetes => hasDiabetes
      case DiabetesType => diabetesType
      case TakesMedicine => takesMedicine
      case MedicineType => medicineType
    }

    /** `{ ...formData, [field]: value }`: that field gets the value, every
        other field keeps its own. */
    function With(f: Field, value: string): (r: FormData)
      ensures r.Get(f) == value
      ensures forall g :: g != f ==> r.Get(g) == Get(g)
    {
      match f
      case Name => this.(name := value)
      case Email => this.(email := value)
      case Phone => this.(phone := value)
      case Password => this.(password := value)
      case ConfirmPassword => this.(confirmPassword := value)
      case BloodType => this.(bloodType := value)
      case HasDiabetes => this.(hasDiabetes := value)
      case DiabetesType => this.(diabetesType := value)
      case TakesMedicine => this.(takesMedicine := value)
      case MedicineType => this.(medicineType := value)
    }
  }

  const EmptyForm: FormData := FormData("", "", "", "", "", "", "", "", "", "")

  // ----- isValidEmail: /^[^\s@]+@[^\s@]+\.[^\s@]+$/ -----

  /** A character of the class `[^\s@]`. */
  predicate EmailChar(c: char) {
    !IsSpace(c) && c != '@'
  }

  predicate EmailChars(s: string) {
    forall k :: 0 <= k < |s| ==> EmailChar(s[k])
  }

  /** The regular expression read off position by position: a non-empty run
      of `[^\s@]`, an `@` at index `i`, a non-empty run, a `.` at index `j`, and
      a non-empty run to the end. */
  predicate IsValidEmail(s: string): (r: bool)
    ensures r ==> |s| >= 5 && forall k :: 0 <= k < |s| ==> !IsSpace(s[k])
  {
    var r := exists i, j | 0 < i < |s| && i + 1 < j < |s| - 1 :: EmailSplit(s, i, j);
    assert r ==> forall k :: 0 <= k < |s| ==> !IsSpace(s[k]) by {
      if r {
        var i, j :| 0 < i < |s| && i + 1 < j < |s| - 1 && EmailSplit(s, i, j);
        forall k | 0 <= k < |s| ensures !IsSpace(s[k]) {
          if k < i {
            assert s[k] == s[..i][k];
          } else if i < k < j {
            assert s[k] == s[i + 1..j][k - i - 1];
          } else if j < k {
            assert s[k] == s[j + 1..][k - j - 1];
          }
        }
      }
    }
    r
  }

  predicate EmailSplit(s: string, i: nat, j: nat)
    requires 0 < i && i + 1 < j && j + 1 < |s|
  {
    s[i] == '@' && s[j] == '.' && EmailChars(s[..i]) && EmailChars(s[i + 1..j]) && EmailChars(s[j + 1..])
  }

  /** A local part: non-empty, without white space or `@`. */
  predicate LocalPart(l: string) {
    |l| > 0 && EmailChars(l)
  }

  /** A domain: without white space or `@`, with a `.` that is neither its
      first nor its last character. */
  predicate DomainPart(d: string) {
    EmailChars(d) && exists p | 0 < p < |d| - 1 :: d[p] == '.'
  }

  /** The address splits around an `@` into a local part and a domain. */
  predicate LocalAtDomain(s: string) {
    exists k | 0 <= k < |s| :: s[k] == '@' && LocalPart(s[..k]) && DomainPart(s[k + 1..])
  }

  /** The regular expression accepts exactly the `local@domain` addresses. */
  lemma EmailIsLocalAtDomain(s: string)
    ensures IsValidEmail(s) <==> LocalAtDomain(s)
  {
    if IsValidEmail(s) {
      var i, j :| 0 < i < |s| && i + 1 < j < |s| - 1 && EmailSplit(s, i, j);
      var d := s[i + 1..];
      assert d == s[i + 1..j] + ['.'] + s[j + 1..];
      assert d[j - i - 1] == '.';
      assert LocalPart(s[..i]) && DomainPart(d);
    }
    if LocalAtDomain(s) {
      var k :| 0 <= k < |s| && s[k] == '@' && LocalPart(s[..k]) && DomainPart(s[k + 1..]);
      var d := s[k + 1..];
      var p :| 0 < p < |d| - 1 && d[p] == '.';
      var j := k + 1 + p;
      assert s[k + 1..j] == d[..p];
      assert s[j + 1..] == d[p + 1..];
      assert EmailSplit(s, k, j);
    }
  }

  /** A valid address holds exactly one `@`. */
  lemma ValidEmailHasOneAt(s: string, a: nat, b: nat)
    requires IsValidEmail(s)
    requires a < |s| && b < |s| && s[a] == '@' && s[b] == '@'
    ensures a == b
  {
    var i, j :| 0 < i < |s| && i + 1 < j < |s| - 1 && EmailSplit(s, i, j);
    assert forall c :: 0 <= c < |s| && s[c] == '@' ==> c == i by {
      assert forall c :: 0 <= c < i ==> s[c] == s[..i][c];
      assert forall c :: i < c < j ==> s[c] == s[i + 1..j][c - i - 1];
      assert forall c :: j < c < |s| ==> s[c] == s[j + 1..][c - j - 1];
    }
  }

  lemma EmailExampleValid()
    ensures IsValidEmail("jean.dupont@mail.fr")
  {
    var s := "jean.dupont@mail.fr";
    assert s[..11] == "jean.dupont" && s[12..16] == "mail" && s[17..] == "fr";
    assert EmailChars("jean.dupont") && EmailChars("mail") && EmailChars("fr");
    assert EmailSplit(s, 11, 16);
  }

  lemma EmailExamplesInvalid()
    ensures !IsValidEmail("jean@mail")
    ensures !IsValidEmail("jean dupont@mail.fr")
  {
    var bad := "jean dupont@mail.fr";
    forall i, j | 0 < i < |bad| && i + 1 < j < |bad| - 1 ensures !EmailSplit(bad, i, j) {
      if i > 4 { assert bad[..i][4] == ' '; }
      else if i < 4 { assert bad[i] != '@'; }
    }
  }

  // ----- isValidPhoneNumber: /^(0|\+33)[1-9]([-.\s]?[0-9]{2}){4}$/ -----

  /** A character of the class `[-.\s]`. */
  predicate IsSeparator(c: char) {
    c == '-' || c == '.' || IsSpace(c)
  }

  /** `s` is exactly `n` repetitions of `[-.\s]?[0-9]{2}`. */
  predicate DigitPairs(s: string, n: nat)
    decreases n
  {
    if n == 0 then s == []
    else
      || (|s| >= 2 && IsDigit(s[0]) && IsDigit(s[1]) && DigitPairs(s[2..], n - 1))
      || (|s| >= 3 && IsSeparator(s[0]) && IsDigit(s[1]) && IsDigit(s[2]) && DigitPairs(s[3..], n - 1))
  }

  /** `[1-9]([-.\s]?[0-9]{2}){4}`: what follows the prefix. */
  predicate SubscriberPart(s: string) {
    |s| >= 1 && '1' <= s[0] <= '9' && DigitPairs(s[1..], 4)
  }

  /** `n` pairs take between `2 * n` and `3 * n` characters, the last a digit. */
  lemma {:induction false} DigitPairsShape(s: string, n: nat)
    requires DigitPairs(s, n)
    ensures 2 * n <= |s| <= 3 * n
    ensures n > 0 ==> IsDigit(s[|s| - 1])
    decreases n
  {
    if n > 0 {
      var w := if |s| >= 2 && IsDigit(s[0]) && IsDigit(s[1]) && DigitPairs(s[2..], n - 1) then 2 else 3;
      DigitPairsShape(s[w..], n - 1);
      if n > 1 {
        assert s[|s| - 1] == s[w..][|s[w..]| - 1];
      }
    }
  }

  predicate IsValidPhoneNumber(s: string): (r: bool)
    ensures r ==> 10 <= |s| <= 16 && (s[0] == '0' || s[0] == '+') && IsDigit(s[|s| - 1])
  {
    var national := |s| >= 1 && s[0] == '0' && SubscriberPart(s[1..]);
    var international := |s| >= 3 && s[..3] == "+33" && SubscriberPart(s[3..]);
    assert national ==> 10 <= |s| <= 14 && IsDigit(s[|s| - 1]) by {
      if national {
        DigitPairsShape(s[2..], 4);
        assert s[1..][1..] == s[2..];
      }
    }
    assert international ==> 12 <= |s| <= 16 && s[0] == '+' && IsDigit(s[|s| - 1]) by {
      if international {
        DigitPairsShape(s[4..], 4);
        assert s[3..][1..] == s[4..];
        assert s[0] == s[..3][0];
      }
    }
    national || international
  }

  /** A phone number as its parts: the prefix (`0`, or `+33` when
      international), the first digit, and the digit pairs, each with the
      separator written before it, if any. */
  datatype Pair = Pair(separator: Option<char>, tens: char, units: char)
  datatype PhoneNumber = PhoneNumber(international: bool, first: char, pairs: seq<Pair>)

  predicate PairOk(p: Pair) {
    (p.separator.Some? ==> IsSeparator(p.separator.value)) && IsDigit(p.tens) && IsDigit(p.units)
  }

  predicate PhoneOk(p: PhoneNumber) {
    '1' <= p.first <= '9' && |p.pairs| == 4 && forall k :: 0 <= k < 4 ==> PairOk(p.pairs[k])
  }

  function RenderPair(p: Pair): string {
    (if p.separator.Some? then [p.separator.value] else []) + [p.tens, p.units]
  }

  function RenderPairs(ps: seq<Pair>): string {
    if ps == [] then [] else RenderPair(ps[0]) + RenderPairs(ps[1..])
  }

  /** The text of a phone number. */
  function Render(p: PhoneNumber): string {
    (if p.international then "+33" else "0") + [p.first] + RenderPairs(p.pairs)
  }

  lemma {:induction false} RenderPairsMatch(ps: seq<Pair>)
    requires forall k :: 0 <= k < |ps| ==> PairOk(ps[k])
    ensures DigitPairs(RenderPairs(ps), |ps|)
  {
    if ps != [] {
      RenderPairsMatch(ps[1..]);
      var s := RenderPairs(ps);
      var head := RenderPair(ps[0]);
      assert s == head + RenderPairs(ps[1..]);
      if ps[0].separator.Some? {
        assert s[3..] == RenderPairs(ps[1..]);
      } else {
        assert s[2..] == RenderPairs(ps[1..]);
      }
    }
  }

  lemma RenderPairsCons(p: Pair, ps: seq<Pair>)
    ensures RenderPairs([p] + ps) == RenderPair(p) + RenderPairs(ps)
  {
    assert ([p] + ps)[1..] == ps;
  }

  /** The digit pairs `s` consists of. */
  function ParsePairs(s: string, n: nat): (ps: seq<Pair>)
    requires DigitPairs(s, n)
    ensures |ps| == n && RenderPairs(ps) == s
    ensures forall k :: 0 <= k < n ==> PairOk(ps[k])
    decreases n
  {
    if n == 0 then []
    else
      var sep := !IsDigit(s[0]);
      var len := if sep then 3 else 2;
      var p := if sep then Pair(Some(s[0]), s[1], s[2]) else Pair(None, s[0], s[1]);
      assert RenderPair(p) == s[..len];
      var rest := ParsePairs(s[len..], n - 1);
      RenderPairsCons(p, rest);
      assert s == s[..len] + s[len..];
      [p] + rest
  }

  /** The part after the prefix of a well-formed phone number matches. */
  lemma RenderedSubscriber(p: PhoneNumber)
    requires PhoneOk(p)
    ensures SubscriberPart([p.first] + RenderPairs(p.pairs))
  {
    RenderPairsMatch(p.pairs);
    var tail := [p.first] + RenderPairs(p.pairs);
    assert tail[1..] == RenderPairs(p.pairs);
  }

  /** Every well-formed phone number is accepted. */
  lemma RenderedPhoneValid(p: PhoneNumber)
    requires PhoneOk(p)
    ensures IsValidPhoneNumber(Render(p))
  {
    var tail := [p.first] + RenderPairs(p.pairs);
    RenderedSubscriber(p);
    var s := Render(p);
    if p.international {
      assert s == "+33" + tail;
      assert s[..3] == "+33" && s[3..] == tail;
    } else {
      assert s == "0" + tail;
      assert s[1..] == tail;
    }
  }

  /** Every accepted text is the text of a well-formed phone number. */
  lemma ValidPhoneParses(s: string) returns (p: PhoneNumber)
    requires IsValidPhoneNumber(s)
    ensures PhoneOk(p) && Render(p) == s
  {
    assert (|s| >= 1 && s[0] == '0' && SubscriberPart(s[1..])) || (|s| >= 3 && s[..3] == "+33" && SubscriberPart(s[3..]));
    var intl := !(|s| >= 1 && s[0] == '0' && SubscriberPart(s[1..]));
    var len := if intl then 3 else 1;
    var rest := s[len..];
    var pairs := ParsePairs(rest[1..], 4);
    p := PhoneNumber(intl, rest[0], pairs);
    assert s[..len] == if intl then "+33" else "0";
    RenderSplit(p, s, len);
  }

  /** A text cut into a prefix, a first digit and the pairs is their rendering. */
  lemma RenderSplit(p: PhoneNumber, s: string, len: nat)
    requires len < |s| && s[..len] == (if p.international then "+33" else "0")
    requires s[len] == p.first && RenderPairs(p.pairs) == s[len + 1..]
    ensures Render(p) == s
  {
    assert s == s[..len] + [s[len]] + s[len + 1..];
  }

  /** The regular expression accepts exactly the texts of well-formed phone
      numbers. */
  lemma PhoneNumberShape(s: string)
    ensures IsValidPhoneNumber(s) <==> exists p :: PhoneOk(p) && Render(p) == s
  {
    if IsValidPhoneNumber(s) {
      var p := ValidPhoneParses(s);
    }
    forall p | PhoneOk(p) && Render(p) == s ensures IsValidPhoneNumber(s) {
      RenderedPhoneValid(p);
    }
  }

  lemma RenderFourPairs(a: Pair, b: Pair, c: Pair, d: Pair)
    ensures RenderPairs([a, b, c, d]) == RenderPair(a) + RenderPair(b) + RenderPair(c) + RenderPair(d)
  {
    RenderPairsCons(d, []);
    assert [c, d] == [c] + [d];
    RenderPairsCons(c, [d]);
    assert [b, c, d] == [b] + [c, d];
    RenderPairsCons(b, [c, d]);
    assert [a, b, c, d] == [a] + [b, c, d];
    RenderPairsCons(a, [b, c, d]);
  }

  /** The national form with spaces is accepted. */
  lemma PhoneExampleNational()
    ensures IsValidPhoneNumber("06 12 34 56 78")
  {
    var sp := Some(' ');
    var n := PhoneNumber(false, '6', [Pair(sp, '1', '2'), Pair(sp, '3', '4'), Pair(sp, '5', '6'), Pair(sp, '7', '8')]);
    RenderedPhoneValid(n);
    RenderFourPairs(Pair(sp, '1', '2'), Pair(sp, '3', '4'), Pair(sp, '5', '6'), Pair(sp, '7', '8'));
    var text := Render(n);
    assert text == "06 12 34 56 78";
  }

  /** The international form without separators is accepted. */
  lemma PhoneExampleInternational()
    ensures IsValidPhoneNumber("+33612345678")
  {
    var n := PhoneNumber(true, '6', [Pair(None, '1', '2'), Pair(None, '3', '4'), Pair(None, '5', '6'), Pair(None, '7', '8')]);
    RenderedPhoneValid(n);
    RenderFourPairs(Pair(None, '1', '2'), Pair(None, '3', '4'), Pair(None, '5', '6'), Pair(None, '7', '8'));
    var text := Render(n);
    assert text == "+33612345678";
  }

  // ----- validateStep -----

  /** `requiredFields[step] || []`. */
  function RequiredFields(step: int): (r: seq<Field>)
    ensures r != [] <==> 1 <= step <= 3
    ensures Email in r <==> step == 1
    ensures Phone in r <==> step == 1
    ensures DiabetesType !in r && MedicineType !in r
  {
    if step == 1 then [Name, Email, Phone, Password, ConfirmPassword]
    else if step == 2 then [BloodType, HasDiabetes]
    else if step == 3 then [TakesMedicine]
    else []
  }

  /** Why a step does not validate; `Message` is the text of the alert. */
  datatype StepError =
    | Missing(field: Field)
    | BadEmail
    | BadPhone
    | PasswordMismatch
    | NoDiabetesType
    | NoMedicineType
  {
    function Message(): (r: string)
      ensures |r| > 0 && r[|r| - 1] == '.'
      ensures Missing? ==> |r| > 10 && r[..10] == "Le champ \""
    {
      match this
      case Missing(f) => "Le champ \"" + f.Key() + "\" est requis."
      case BadEmail => "Format d'email invalide."
      case BadPhone => "Numéro de téléphone invalide."
      case PasswordMismatch => "Les mots de passe ne correspondent pas."
      case NoDiabetesType => "Veuillez spécifier le type de diabète."
      case NoMedicineType => "Veuillez spécifier le type de médicament."
    }
  }

  /** Two fields never share a key. */
  lemma KeyInjective(f: Field, g: Field)
    ensures f.Key() == g.Key() ==> f == g
  {
  }

  /** The error whose fixed message has `n` characters. */
  function FixedOfLength(n: nat): StepError {
    if n == 24 then BadEmail
    else if n == 29 then BadPhone
    else if n == 39 then PasswordMismatch
    else if n == 38 then NoDiabetesType
    else NoMedicineType
  }

  /** The five fixed messages differ in length, and none begins like the
      message of a missing field. */
  lemma FixedMessage(e: StepError)
    requires !e.Missing?
    ensures e == FixedOfLength(|e.Message()|)
    ensures e.Message()[2] != ' '
  {
    match e
    case BadEmail =>
    case BadPhone =>
    case PasswordMismatch =>
    case NoDiabetesType =>
    case NoMedicineType =>
  }

  /** The alert names the error: two different errors never show the same text. */
  lemma MessageIdentifiesError(e: StepError, d: StepError)
    ensures e.Message() == d.Message() ==> e == d
  {
    if !e.Missing? {
      FixedMessage(e);
    }
    if !d.Missing? {
      FixedMessage(d);
    }
    if e.Missing? && d.Missing? && e.Message() == d.Message() {
      var m := e.Message();
      var a, b := e.field.Key(), d.field.Key();
      assert |a| == |b|;
      assert a == m[10..10 + |a|];
      assert b == m[10..10 + |b|];
      KeyInjective(e.field, d.field);
    }
  }

  datatype Check = Passed | Failed(error: StepError)

  /** The first of `fields` that is empty in the form. */
  function FirstEmpty(fields: seq<Field>, form: FormData): (r: Option<Field>)
    ensures r.None? <==> forall k :: 0 <= k < |fields| ==> form.Get(fields[k]) != ""
    ensures r.Some? ==> exists k :: 0 <= k < |fields| && fields[k] == r.value && form.Get(fields[k]) == ""
                            && forall m :: 0 <= m < k ==> form.Get(fields[m]) != ""
  {
    if fields == [] then None
    else if form.Get(fields[0]) == "" then Some(fields[0])
    else
      var r := FirstEmpty(fields[1..], form);
      assert forall k :: 0 < k < |fields| ==> fields[k] == fields[1..][k - 1];
      r
  }

  /** Everything the step demands of the form. */
  ghost predicate StepComplete(step: int, form: FormData) {
    && (forall f :: f in RequiredFields(step) ==> form.Get(f) != "")
    && (step == 1 ==> IsValidEmail(form.email) && IsValidPhoneNumber(form.phone) && form.password == form.confirmPassword)
    && (step == 2 && form.hasDiabetes == "oui" ==> form.diabetesType != "")
    && (step == 3 && form.takesMedicine == "oui" ==> form.medicineType != "")
  }

  /** The verdict of `validateStep`: the required fields in their order, then
      the step's own checks in the order `validateStep` makes them. */
  function StepCheck(step: int, form: FormData): (r: Check)
    ensures r.Passed? <==> StepComplete(step, form)
    ensures r.Failed? && r.error.Missing? ==> r.error.field in RequiredFields(step) && form.Get(r.error.field) == ""
    ensures (exists f :: f in RequiredFields(step) && form.Get(f) == "") ==> r.Failed? && r.error.Missing?
  {
    match FirstEmpty(RequiredFields(step), form)
    case Some(f) => Failed(Missing(f))
    case None =>
      if step == 1 && !IsValidEmail(form.email) then Failed(BadEmail)
      else if step == 1 && !IsValidPhoneNumber(form.phone) then Failed(BadPhone)
      else if step == 1 && form.password != form.confirmPassword then Failed(PasswordMismatch)
      else if step == 2 && form.hasDiabetes == "oui" && form.diabetesType == "" then Failed(NoDiabetesType)
      else if step == 3 && form.takesMedicine == "oui" && form.medicineType == "" then Failed(NoMedicineType)
      else Passed
  }

  /** `validateStep`: the loop over the required fields with its early
      return, then the step's own checks. */
  method ValidateStep(step: int, form: FormData) returns (r: Check)
    ensures r == StepCheck(step, form)
  {
    var fields := RequiredFields(step);
    var i := 0;
    while i < |fields|
      invariant 0 <= i <= |fields|
      invariant forall k :: 0 <= k < i ==> form.Get(fields[k]) != ""
    {
      if form.Get(fields[i]) == "" {
        return Failed(Missing(fields[i]));
      }
      i := i + 1;
    }
    if step == 1 {
      if !IsValidEmail(form.email) {
        return Failed(BadEmail);
      }
      if !IsValidPhoneNumber(form.phone) {
        return Failed(BadPhone);
      }
      if form.password != form.confirmPassword {
        return Failed(PasswordMismatch);
      }
    }
    if step == 2 && form.hasDiabetes == "oui" && form.diabetesType == "" {
      return Failed(NoDiabetesType);
    }
    if step == 3 && form.takesMedicine == "oui" && form.medicineType == "" {
      return Failed(NoMedicineType);
    }
    return Passed;
  }

  /** The step-specific verdicts of `validateStep`. */
  lemma StepCheckProperties(step: int, form: FormData)
    ensures StepCheck(step, form).Passed? && step == 1 ==>
      IsValidEmail(form.email) && IsValidPhoneNumber(form.phone) && form.password == form.confirmPassword
    ensures step == 2 && form.hasDiabetes == "oui" && form.diabetesType == "" ==> StepCheck(step, form).Failed?
    ensures step == 3 && form.takesMedicine == "oui" && form.medicineType == "" ==> StepCheck(step, form).Failed?
    ensures step == 4 ==> StepCheck(step, form).Passed?
  {
  }

  // ----- the last step: sign-up, then automatic login -----

  /** How the two requests of the last step end. */
  datatype SignupExchange =
    | Threw(message: string)          // a request or a body decoding threw
    | SignupRefused(message: string)  // sign-up answered not ok; "" when its body has no message
    | LoginRefused(message: string)   // login answered not ok; "" when its body has no message
    | LoggedIn(idToken: string)       // both answered ok; "" when no token came back

  predicate SignupSucceeds(x: SignupExchange) {
    x.LoggedIn? && x.idToken != ""
  }

  /** The alert the last step ends with. */
  function SignupAlert(x: SignupExchange, email: string): (a: Alert)
    ensures a.title == "Succès" <==> SignupSucceeds(x)
    ensures !SignupSucceeds(x) ==> a.title == "Erreur"
    ensures SignupSucceeds(x) ==> a.message == "Inscription et connexion réussies, bienvenue " + email + " !"
    ensures x.Threw? ==> a.message == x.message
    ensures x.SignupRefused? ==> a.message == if x.message != "" then x.message else "Erreur lors de l'inscription"
    ensures x.LoginRefused? ==> a.message == if x.message != "" then x.message else "Erreur lors de la connexion automatique"
    ensures x.LoggedIn? && x.idToken == "" ==> a.message == "Token non reçu après connexion"
  {
    match x
    case Threw(m) => Alert("Erreur", m)
    case SignupRefused(m) => Alert("Erreur", if m != "" then m else "Erreur lors de l'inscription")
    case LoginRefused(m) => Alert("Erreur", if m != "" then m else "Erreur lors de la connexion automatique")
    case LoggedIn(token) =>
      if token == "" then Alert("Erreur", "Token non reçu après connexion")
      else Alert("Succès", "Inscription et connexion réussies, bienvenue " + email + " !")
  }

  // ----- the wizard -----

  class RegisterScreen {
    var step: int
    var formData: FormData
    /** The shared "is logged in" flag the screen sets through `setIsLoggedIn`. */
    var loggedIn: bool

    ghost predicate Valid()
      reads this
    {
      1 <= step <= 4
    }

    constructor ()
      ensures Valid() && step == 1 && formData == EmptyForm && !loggedIn
    {
      step := 1;
      formData := EmptyForm;
      loggedIn := false;
    }

    /** `handleChange(field, value)`. */
    method HandleChange(field: Field, value: string)
      modifies this
      ensures formData == old(formData).With(field, value)
      ensures step == old(step) && loggedIn == old(loggedIn)
    {
      formData := formData.With(field, value);
    }

    /** `handleNext`: stay on a step that does not validate, move on from
        steps 1 to 3, and send the form from step 4. */
    method HandleNext(exchange: SignupExchange) returns (alerts: seq<Alert>)
      requires Valid()
      modifies this
      ensures Valid() && formData == old(formData)
      ensures StepCheck(old(step), formData).Failed? ==>
        step == old(step) && loggedIn == old(loggedIn)
        && alerts == [Alert("Erreur", StepCheck(old(step), formData).error.Message())]
      ensures StepCheck(old(step), formData).Passed? && old(step) < 4 ==>
        step == old(step) + 1 && loggedIn == old(loggedIn) && alerts == []
      ensures StepCheck(old(step), formData).Passed? && old(step) == 4 ==>
        step == 4 && loggedIn == (old(loggedIn) || SignupSucceeds(exchange))
        && alerts == [SignupAlert(exchange, formData.email)]
    {
      var check := ValidateStep(step, formData);
      if check.Failed? {
        return [Alert("Erreur", check.error.Message())];
      }
      if step == 4 {
        if SignupSucceeds(exchange) {
          loggedIn := true;
        }
        return [SignupAlert(exchange, formData.email)];
      }
      step := step + 1;
      return [];
    }

    /** `handleBack`: one step back, never below the first. */
    method HandleBack()
      requires Valid()
      modifies this
      ensures Valid()
      ensures step == if old(step) > 1 then old(step) - 1 else old(step)
      ensures formData == old(formData) && loggedIn == old(loggedIn)
    {
      if step > 1 {
        step := step - 1;
      }
    }
  }
}
