/** The password-reset wizard: phone number, then a one-time code, then a new
    password. */
module ForgotPassword {
  import opened Wrappers
  import opened Text
  import opened Seqs
  import Auth

  datatype Step = PhoneStep | OtpStep | PasswordStep

  /** A row of the `otp_codes` table; times are milliseconds since the epoch. */
  datatype OtpRow = OtpRow(id: string, phone: string, code: string, expiresAt: int, used: bool, createdAt: int)

  /** The two tables the wizard reads and writes. */
  datatype Tables = Tables(users: seq<Auth.UserRow>, otps: seq<OtpRow>)

  /** The wizard's state: the step on screen and the phone number typed in step one. */
  datatype Wizard = Wizard(step: Step, phone: string)

  const Initial := Wizard(PhoneStep, "")

  /** How long a code stays valid: ten minutes. */
  const OtpLifetime := 10 * 60 * 1000

  /** `generateOTP`: `Math.floor(100000 + r * 900000)` for the random `r` in
      `[0, 1)`, computed exactly. */
  function GenerateOtp(r: real): (code: nat)
    requires 0.0 <= r < 1.0
    ensures 100000 <= code <= 999999
  {
    var x := 100000.0 + r * 900000.0;
    assert 100000.0 <= x < 1000000.0;
    x.Floor
  }

  /** The generated code always has six digits when written out. */
  lemma OtpHasSixDigits(r: real)
    requires 0.0 <= r < 1.0
    ensures |ShowNat(GenerateOtp(r))| == 6
  {
    ShowNatSixDigits(GenerateOtp(r));
  }

  datatype SendOutcome = SendOutcome(wizard: Wizard, tables: Tables, error: Option<string>)

  /** `handleSendOTP`, from the phone step: the phone must pick out exactly one
      user; then a fresh code, valid for ten minutes, is stored (`insertOk` is
      the insert's answer, `newId` the row id the backend assigns) and the
      wizard moves to the code step. */
  function SendOtp(w: Wizard, t: Tables, r: real, now: int, newId: string, insertOk: bool): (o: SendOutcome)
    requires 0.0 <= r < 1.0
    ensures w.step != PhoneStep ==> o == SendOutcome(w, t, None)
    ensures w.step == PhoneStep && Count(t.users, Auth.PhoneIs(w.phone)) != 1 ==>
      o == SendOutcome(w, t, Some("Phone number not registered"))
    ensures w.step == PhoneStep && Count(t.users, Auth.PhoneIs(w.phone)) == 1 && !insertOk ==>
      o == SendOutcome(w, t, Some("Failed to send OTP"))
    ensures w.step == PhoneStep ==>
      (o.wizard.step == OtpStep <==> Count(t.users, Auth.PhoneIs(w.phone)) == 1 && insertOk)
    ensures w.step == PhoneStep && o.wizard.step == OtpStep ==>
      o.tables == t.(otps := t.otps + [OtpRow(newId, w.phone, ShowNat(GenerateOtp(r)), now + OtpLifetime, false, now)])
    ensures o.wizard.phone == w.phone
  {
    if w.step != PhoneStep then SendOutcome(w, t, None)
    else if SingleMatch(t.users, Auth.PhoneIs(w.phone)).None? then
      SendOutcome(w, t, Some("Phone number not registered"))
    else if !insertOk then SendOutcome(w, t, Some("Failed to send OTP"))
    else
      var row := OtpRow(newId, w.phone, ShowNat(GenerateOtp(r)), now + OtpLifetime, false, now);
      SendOutcome(w.(step := OtpStep), t.(otps := t.otps + [row]), None)
  }

  /** The query's filter: same phone, same code, unused, not yet expired. */
  predicate Redeemable(row: OtpRow, phone: string, code: string, now: int) {
    row.phone == phone && row.code == code && !row.used && row.expiresAt >= now
  }

  /** `order("created_at", descending).limit(1)`: a most recently created row. */
  function Newest(rows: seq<OtpRow>): (r: OtpRow)
    requires |rows| > 0
    ensures r in rows
    ensures forall i :: 0 <= i < |rows| ==> rows[i].createdAt <= r.createdAt
  {
    if |rows| == 1 then rows[0]
    else
      var rest := Newest(rows[1..]);
      if rows[0].createdAt >= rest.createdAt then rows[0] else rest
  }

  /** The row `handleVerifyOTP` accepts, if any. */
  function Lookup(otps: seq<OtpRow>, phone: string, code: string, now: int): (r: Option<OtpRow>)
    ensures r.None? <==> forall i :: 0 <= i < |otps| ==> !Redeemable(otps[i], phone, code, now)
    ensures r.Some? ==> r.value in otps && Redeemable(r.value, phone, code, now)
    ensures r.Some? ==> forall i :: 0 <= i < |otps| && Redeemable(otps[i], phone, code, now) ==>
      otps[i].createdAt <= r.value.createdAt
  {
    var keep := (row: OtpRow) => Redeemable(row, phone, code, now);
    var cands := Filter(otps, keep);
    if |cands| == 0 then None else Some(Newest(cands))
  }

  /** The used flag set on the row with the given id. */
  function MarkUsed(otps: seq<OtpRow>, id: string): (r: seq<OtpRow>)
    ensures |r| == |otps|
    ensures forall i :: 0 <= i < |otps| ==>
      r[i] == (if otps[i].id == id then otps[i].(used := true) else otps[i])
  {
    seq(|otps|, i requires 0 <= i < |otps| => if otps[i].id == id then otps[i].(used := true) else otps[i])
  }

  datatype VerifyOutcome = VerifyOutcome(wizard: Wizard, tables: Tables, error: Option<string>)

  /** `handleVerifyOTP`, from the code step: a redeemable row for the phone and
      code moves the wizard on and is marked used. The page does not look at the
      answer to that update; `markOk` is whether it took effect. */
  function VerifyOtp(w: Wizard, t: Tables, code: string, now: int, markOk: bool): (o: VerifyOutcome)
    ensures w.step != OtpStep ==> o == VerifyOutcome(w, t, None)
    ensures w.step == OtpStep && Lookup(t.otps, w.phone, code, now).None? ==>
      o == VerifyOutcome(w, t, Some("Invalid or expired OTP"))
    ensures w.step == OtpStep ==> (o.wizard.step == PasswordStep <==> Lookup(t.otps, w.phone, code, now).Some?)
    ensures w.step == OtpStep && o.wizard.step == PasswordStep && markOk ==>
      o.tables == t.(otps := MarkUsed(t.otps, Lookup(t.otps, w.phone, code, now).value.id))
    ensures !markOk ==> o.tables == t
    ensures o.wizard.phone == w.phone && o.tables.users == t.users
  {
    if w.step != OtpStep then VerifyOutcome(w, t, None)
    else match Lookup(t.otps, w.phone, code, now)
      case None => VerifyOutcome(w, t, Some("Invalid or expired OTP"))
      case Some(row) =>
        var otps := if markOk then MarkUsed(t.otps, row.id) else t.otps;
        VerifyOutcome(w.(step := PasswordStep), t.(otps := otps), None)
  }

  /** A code is good once: after it is accepted and marked used, the same code
      is refused, unless another row with that code was issued too. */
  lemma CodeIsSingleUse(w: Wizard, t: Tables, code: string, now: int, later: int)
    requires w.step == OtpStep && Lookup(t.otps, w.phone, code, now).Some?
    requires forall i :: 0 <= i < |t.otps| && Redeemable(t.otps[i], w.phone, code, later) ==>
      t.otps[i].id == Lookup(t.otps, w.phone, code, now).value.id
    ensures var o := VerifyOtp(w, t, code, now, true);
      Lookup(o.tables.otps, w.phone, code, later).None?
  {
    var o := VerifyOtp(w, t, code, now, true);
    var id := Lookup(t.otps, w.phone, code, now).value.id;
    forall i | 0 <= i < |o.tables.otps| ensures !Redeemable(o.tables.otps[i], w.phone, code, later) {
      if t.otps[i].id != id {
        assert o.tables.otps[i] == t.otps[i];
      }
    }
  }

  /** A code is refused from the moment its ten minutes are over. */
  lemma CodeExpires(w: Wizard, t: Tables, code: string, issued: int, now: int)
    requires forall i :: 0 <= i < |t.otps| && t.otps[i].phone == w.phone && t.otps[i].code == code ==>
      t.otps[i].expiresAt == t.otps[i].createdAt + OtpLifetime && t.otps[i].createdAt <= issued
    requires now > issued + OtpLifetime
    ensures Lookup(t.otps, w.phone, code, now).None?
  {
  }

  /** "Change Phone Number" on the code step goes back to the first step. */
  function ChangePhone(w: Wizard): (r: Wizard)
    ensures w.step == OtpStep ==> r == w.(step := PhoneStep)
    ensures w.step != OtpStep ==> r == w
  {
    if w.step == OtpStep then w.(step := PhoneStep) else w
  }

  datatype ResetError = Mismatch | TooShort | UpdateFailed

  function ErrorMessage(e: ResetError): string {
    match e
    case Mismatch => "Passwords do not match"
    case TooShort => "Password must be at least 6 characters"
    case UpdateFailed => "Failed to reset password"
  }

  datatype ResetOutcome = ResetOutcome(tables: Tables, error: Option<ResetError>, navigateTo: Option<string>)

  /** The password written to every user row with the given phone. */
  function SetPassword(users: seq<Auth.UserRow>, phone: string, password: string): (r: seq<Auth.UserRow>)
    ensures |r| == |users|
    ensures forall i :: 0 <= i < |users| ==>
      r[i] == (if users[i].phone == phone then users[i].(password := password) else users[i])
  {
    seq(|users|, i requires 0 <= i < |users| =>
      if users[i].phone == phone then users[i].(password := password) else users[i])
  }

  /** `handleResetPassword`: the two passwords must match (checked first), the
      new one must have at least six characters; then the users with the phone
      get it (`updateOk` is the update's answer) and the visitor goes to login. */
  function ResetPassword(w: Wizard, t: Tables, newPassword: string, confirm: string, updateOk: bool): (o: ResetOutcome)
    ensures newPassword != confirm ==> o == ResetOutcome(t, Some(Mismatch), None)
    ensures newPassword == confirm && |newPassword| < 6 ==> o == ResetOutcome(t, Some(TooShort), None)
    ensures o.error.None? <==> newPassword == confirm && |newPassword| >= 6 && updateOk
    ensures o.error.None? ==>
      o.tables == t.(users := SetPassword(t.users, w.phone, newPassword)) && o.navigateTo == Some("/login")
    ensures o.error.Some? ==> o.tables == t && o.navigateTo.None?
  {
    if newPassword != confirm then ResetOutcome(t, Some(Mismatch), None)
    else if |newPassword| < 6 then ResetOutcome(t, Some(TooShort), None)
    else if !updateOk then ResetOutcome(t, Some(UpdateFailed), None)
    else ResetOutcome(t.(users := SetPassword(t.users, w.phone, newPassword)), None, Some("/login"))
  }

  /** After a successful reset, signing in with the phone and the new password
      works whenever exactly one account has that phone (the condition under
      which `login` finds an account at all). */
  lemma ResetThenLogin(w: Wizard, t: Tables, newPassword: string, s: Auth.Session)
    requires |newPassword| >= 6
    requires Count(t.users, Auth.PhoneIs(w.phone)) == 1
    ensures var o := ResetPassword(w, t, newPassword, newPassword, true);
      o.error.None? && Auth.Login(s, o.tables.users, w.phone, newPassword).error.None?
  {
    var users := SetPassword(t.users, w.phone, newPassword);
    var p := Auth.PhoneIs(w.phone);
    forall i | 0 <= i < |users| ensures p(t.users[i]) == p(users[i]) {
      assert users[i].phone == t.users[i].phone;
    }
    CountPointwise(t.users, p, users, p);
    var row := SingleMatch(users, p).value;
    var i :| 0 <= i < |users| && users[i] == row;
    assert row.password == newPassword;
  }

  /** The wizard's only moves: phone to code, code to password, code back to phone. */
  predicate Allowed(a: Step, b: Step) {
    a == b || (a == PhoneStep && b == OtpStep) || (a == OtpStep && b == PasswordStep) || (a == OtpStep && b == PhoneStep)
  }

  lemma OnlyAllowedMoves(w: Wizard, t: Tables, r: real, now: int, newId: string, ok: bool, code: string)
    requires 0.0 <= r < 1.0
    ensures Allowed(w.step, SendOtp(w, t, r, now, newId, ok).wizard.step)
    ensures Allowed(w.step, VerifyOtp(w, t, code, now, ok).wizard.step)
    ensures Allowed(w.step, ChangePhone(w).step)
  {
  }

  /** The password step is reached only through an accepted code. */
  lemma PasswordStepNeedsCode(w: Wizard, t: Tables, code: string, now: int, markOk: bool)
    requires w.step != PasswordStep
    requires VerifyOtp(w, t, code, now, markOk).wizard.step == PasswordStep
    ensures exists i :: 0 <= i < |t.otps| && Redeemable(t.otps[i], w.phone, code, now)
  {
  }
}
