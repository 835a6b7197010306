// Sign-up: the form is trimmed and checked, the account is requested, and the
// user's profile document is stored under the new account's uid.

module SignUp {
  import opened Wrappers
  import opened Text
  import opened Firestore

  const MinPasswordLength := 6
  const RequiredMessage := "이메일, 비밀번호, 이름은 필수입니다."
  const ShortPasswordMessage := "비밀번호는 6자리 이상이어야 합니다."

  /** The five text fields as typed. */
  datatype Form = Form(name: string, email: string, password: string, phone: string, date: string)

  /** What the submit button makes of a form: a refusal, or the trimmed registration. */
  datatype Check =
    | MissingRequired
    | ShortPassword
    | Accepted(name: string, email: string, password: string, phone: string, date: string)

  /**
   * Every field is trimmed; email, password and name are required, phone and birth
   * date are not; the trimmed password needs at least six characters.
   */
  function Validate(f: Form): (r: Check)
    ensures r.MissingRequired? <==> AllWhitespace(f.email) || AllWhitespace(f.password) || AllWhitespace(f.name)
    ensures r.ShortPassword? <==> !r.MissingRequired? && |Trim(f.password)| < MinPasswordLength
    ensures r.Accepted? ==>
              && r == Accepted(Trim(f.name), Trim(f.email), Trim(f.password), Trim(f.phone), Trim(f.date))
              && r.name != [] && r.email != [] && |r.password| >= MinPasswordLength
  {
    TrimEmptyIff(f.email);
    TrimEmptyIff(f.password);
    TrimEmptyIff(f.name);
    var name := Trim(f.name);
    var email := Trim(f.email);
    var password := Trim(f.password);
    var phone := Trim(f.phone);
    var date := Trim(f.date);
    if email == [] || password == [] || name == [] then MissingRequired
    else if |password| < MinPasswordLength then ShortPassword
    else Accepted(name, email, password, phone, date)
  }

  /** The message shown for a refused form. */
  function RefusalMessage(r: Check): string
    requires !r.Accepted?
  {
    if r.MissingRequired? then RequiredMessage else ShortPasswordMessage
  }

  /** Re-submitting the accepted, trimmed values is accepted again, unchanged. */
  lemma AcceptedIsStable(f: Form)
    requires Validate(f).Accepted?
    ensures var r := Validate(f);
      Validate(Form(r.name, r.email, r.password, r.phone, r.date)) == r
  {
    TrimIdempotent(f.name);
    TrimIdempotent(f.email);
    TrimIdempotent(f.password);
    TrimIdempotent(f.phone);
    TrimIdempotent(f.date);
    TrimEmptyIff(Trim(f.name));
    TrimEmptyIff(Trim(f.email));
    TrimEmptyIff(Trim(f.password));
  }

  /**
   * The birth date the date picker writes into its field: `"%02d/%02d/%04d"` of the
   * day, the 0-based month plus one, and the year.
   */
  function BirthDate(day: nat, month0: nat, year: nat): string {
    ZeroPad(day, 2) + "/" + ZeroPad(month0 + 1, 2) + "/" + ZeroPad(year, 4)
  }

  /**
   * For a picker date the text is "DD/MM/YYYY": ten characters, slashes at 2 and 5,
   * and digit groups that read back as the day, the calendar month and the year.
   */
  lemma BirthDateSpec(day: nat, month0: nat, year: nat)
    requires 1 <= day <= 31 && month0 <= 11 && year < 10000
    ensures var s := BirthDate(day, month0, year);
      && |s| == 10 && s[2] == '/' && s[5] == '/'
      && AllDigits(s[..2]) && DigitsValue(s[..2]) == day
      && AllDigits(s[3..5]) && DigitsValue(s[3..5]) == month0 + 1
      && AllDigits(s[6..]) && DigitsValue(s[6..]) == year
  {
    PowersOfTen();
    ZeroPadSpec(day, 2);
    ZeroPadSpec(month0 + 1, 2);
    ZeroPadSpec(year, 4);
    DateParts(ZeroPad(day, 2), ZeroPad(month0 + 1, 2), ZeroPad(year, 4));
  }

  lemma PowersOfTen()
    ensures Pow10(2) == 100 && Pow10(4) == 10000
  {
    assert Pow10(1) == 10;
    assert Pow10(3) == 1000;
  }

  /** Where the parts of "DD/MM/YYYY" sit. */
  lemma DateParts(d: string, m: string, y: string)
    requires |d| == 2 && |m| == 2 && |y| == 4
    ensures var s := d + "/" + m + "/" + y;
      && |s| == 10 && s[2] == '/' && s[5] == '/'
      && s[..2] == d && s[3..5] == m && s[6..] == y
  {
    var s := d + "/" + m + "/" + y;
    assert s[..2] == d;
    assert s[3..5] == m;
    assert s[6..] == y;
  }

  /** A picked date needs no trimming, so the profile stores exactly the picked text. */
  lemma PickedDateIsKept(day: nat, month0: nat, year: nat)
    requires 1 <= day <= 31 && month0 <= 11 && year < 10000
    ensures Trim(BirthDate(day, month0, year)) == BirthDate(day, month0, year)
  {
    BirthDateSpec(day, month0, year);
    var s := BirthDate(day, month0, year);
    assert IsDigit(s[0]) && IsDigit(s[9]);
    TrimKeeps(s);
  }

  /** `saveUserDetailToFirestore`: the profile document stored as `user/{uid}`. */
  function UserRecord(uid: string, name: string, email: string, phone: string, date: string): (f: Fields)
    ensures f.Keys == {"name", "email", "phone", "birth", "user_docid"}
  {
    map["name" := VString(name), "email" := VString(email), "phone" := VString(phone),
        "birth" := VString(date), "user_docid" := VString(uid)]
  }

  /** Every profile field reads back as what was registered, and the password is not stored. */
  lemma UserRecordRoundTrip(uid: string, name: string, email: string, phone: string, date: string)
    ensures var f := UserRecord(uid, name, email, phone, date);
      && GetString(f, "name") == Some(name) && GetString(f, "email") == Some(email)
      && GetString(f, "phone") == Some(phone) && GetString(f, "birth") == Some(date)
      && GetString(f, "user_docid") == Some(uid)
      && "password" !in f
  {
  }

  /** The sign-up screen's state around one registration. */
  class SignUpScreen {
    var submitEnabled: bool
    /** The accepted registration whose account request is in flight. */
    var pending: Option<Check>
    /** The profile document write issued after the account was created: its uid and fields. */
    var written: Option<(string, Fields)>

    constructor ()
      ensures submitEnabled && pending.None? && written.None?
    {
      submitEnabled := true;
      pending := None;
      written := None;
    }

    /**
     * A tap on the submit button. A disabled button delivers no tap; a refused form
     * shows its message; an accepted one disables the button and requests the account.
     */
    method OnSubmitClicked(f: Form) returns (message: Option<string>)
      modifies this
      ensures !old(submitEnabled) ==> submitEnabled == old(submitEnabled) && pending == old(pending) && message.None?
      ensures old(submitEnabled) && !Validate(f).Accepted? ==>
                submitEnabled && pending == old(pending) && message == Some(RefusalMessage(Validate(f)))
      ensures old(submitEnabled) && Validate(f).Accepted? ==>
                !submitEnabled && pending == Some(Validate(f)) && message.None?
      ensures written == old(written)
    {
      if !submitEnabled {
        return None;
      }
      var r := Validate(f);
      if !r.Accepted? {
        return Some(RefusalMessage(r));
      }
      submitEnabled := false;
      pending := Some(r);
      message := None;
    }

    /**
     * The account request completes: the button is enabled again whatever the result;
     * on success with a signed-in user, the profile is written under that user's uid.
     */
    method OnAccountCreated(result: Fetch<Option<string>>)
      requires pending.Some? && pending.value.Accepted?
      modifies this
      ensures submitEnabled && pending == old(pending)
      ensures result.Loaded? && result.result.Some? ==>
                var p := pending.value;
                written == Some((result.result.value, UserRecord(result.result.value, p.name, p.email, p.phone, p.date)))
      ensures !(result.Loaded? && result.result.Some?) ==> written == old(written)
    {
      submitEnabled := true;
      if result.Loaded? && result.result.Some? {
        var uid := result.result.value;
        var p := pending.value;
        written := Some((uid, UserRecord(uid, p.name, p.email, p.phone, p.date)));
      }
    }
  }

  /**
   * While an account request is in flight the button is disabled, so a second tap
   * starts no second request.
   */
  method NoDoubleSubmit(screen: SignUpScreen, f: Form, g: Form)
    requires screen.submitEnabled && Validate(f).Accepted?
    modifies screen
    ensures screen.pending == Some(Validate(f)) && !screen.submitEnabled
  {
    var _ := screen.OnSubmitClicked(f);
    var second := screen.OnSubmitClicked(g);
  }
}
