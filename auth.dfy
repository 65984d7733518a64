/** login.php, register.php and profile.php: the request flows that drive
    the rate limiter, the session and the users table. Password hashing and
    verification and filter_var's email check are opaque and passed in. */
module Auth {
  import opened Php
  import opened Config
  import opened Ledger

  /** A users row answers to an identifier by its username or its email. */
  predicate Identifies(u: User, ident: string) {
    u.username == ident || u.email == ident
  }

  // ---------------------------------------------------------------- login.php

  datatype LoginOutcome =
    | BadRequest
    | MissingCredentials
    | Blocked(minutes: int)
    | LoggedIn(userId: int)
    | BadCredentials

  /** The error shown for each outcome; a successful login shows none. */
  function LoginError(o: LoginOutcome): (m: Option<string>)
    ensures m.None? <==> o.LoggedIn?
    ensures o.Blocked? ==> m == Some("Too many failed login attempts. Please try again in " + IntToString(o.minutes) + " minutes.")
  {
    match o
    case BadRequest => Some("Invalid request. Please try again.")
    case MissingCredentials => Some("Please enter both username and password")
    case Blocked(n) => Some("Too many failed login attempts. Please try again in " + IntToString(n) + " minutes.")
    case LoggedIn(_) => None
    case BadCredentials => Some("Invalid username or password")
  }

  /** The flash shown after a successful login: the stored full name is
      escaped by e() and the whole message by setFlashMessage. */
  function WelcomeMessage(fullName: string): string {
    "Welcome back, " + HtmlEscape(fullName) + "!"
  }

  /** The credential step of login.php for a non-empty identifier and
      password: a locked identifier is not looked up and records nothing;
      otherwise the user found by username or email is verified, and the
      request either logs the user in and clears the identifier's failures or
      records exactly one more failure. */
  method Authenticate(s: Session, db: Database, id: string, password: string,
                      now: int, verify: (string, string) -> bool) returns (outcome: LoginOutcome)
    modifies s`attempts, s`user, s`lastActivity, s`loginTime, s`flashMessage, s`flashType
    ensures outcome.Blocked? || outcome.LoggedIn? || outcome.BadCredentials?
    ensures outcome.Blocked? <==> RateVerdict(old(s.Entry(id)), now).Locked?
    ensures outcome.Blocked? ==>
      RateVerdict(old(s.Entry(id)), now) == Locked(outcome.minutes) &&
      s.attempts == old(s.attempts) && s.user == old(s.user) &&
      s.lastActivity == old(s.lastActivity) && s.loginTime == old(s.loginTime) &&
      s.flashMessage == old(s.flashMessage) && s.flashType == old(s.flashType)
    ensures outcome.LoggedIn? ==> outcome.userId in db.users
    ensures outcome.LoggedIn? ==>
      var u := db.users[outcome.userId];
      Identifies(u, id) && verify(password, u.passwordHash) &&
      s.user == Some(SessionUser(outcome.userId, u.username, u.fullName, u.email)) &&
      s.lastActivity == Some(now) && s.loginTime == Some(now) &&
      s.attempts == ResetIfExpired(old(s.attempts), id, now) - {id} &&
      s.flashMessage == Some(SanitizeInput(WelcomeMessage(u.fullName))) && s.flashType == Some(SUCCESS)
    ensures outcome.BadCredentials? ==>
      var checked := ResetIfExpired(old(s.attempts), id, now);
      s.attempts == checked[id := AfterFailure(if id in checked then Some(checked[id]) else None, now)] &&
      s.user == old(s.user) &&
      s.lastActivity == old(s.lastActivity) && s.loginTime == old(s.loginTime) &&
      s.flashMessage == old(s.flashMessage) && s.flashType == old(s.flashType) &&
      ((forall uid :: uid in db.users ==> !Identifies(db.users[uid], id)) ||
       (exists uid :: uid in db.users && Identifies(db.users[uid], id) && !verify(password, db.users[uid].passwordHash)))
  {
    var check := s.CheckLoginAttempts(id, now);
    if check.Locked? {
      return Blocked(check.remainingMinutes);
    }
    if exists uid :: uid in db.users && Identifies(db.users[uid], id) {
      var uid :| uid in db.users && Identifies(db.users[uid], id);
      var u := db.users[uid];
      if verify(password, u.passwordHash) {
        s.user := Some(SessionUser(uid, u.username, u.fullName, u.email));
        s.lastActivity := Some(now);
        s.loginTime := Some(now);
        s.RecordLoginAttempt(id, true, now);
        s.SetFlashMessage(WelcomeMessage(u.fullName), SUCCESS);
        return LoggedIn(uid);
      }
    }
    s.RecordLoginAttempt(id, false, now);
    return BadCredentials;
  }

  /** The POST branch of login.php. The CSRF check comes first and touches
      nothing; a username that sanitises to a PHP-empty string, or an empty
      password, touches nothing; otherwise the sanitised username is the
      identifier of the credential step. */
  method Login(s: Session, db: Database, csrf: Option<string>, rawUsername: string, password: string,
               now: int, verify: (string, string) -> bool) returns (outcome: LoginOutcome)
    modifies s`attempts, s`user, s`lastActivity, s`loginTime, s`flashMessage, s`flashType
    ensures outcome.BadRequest? <==> csrf.None? || !CsrfValid(old(s.csrfToken), csrf.value)
    ensures outcome.BadRequest? || outcome.MissingCredentials? ==>
      s.attempts == old(s.attempts) && s.user == old(s.user) &&
      s.lastActivity == old(s.lastActivity) && s.loginTime == old(s.loginTime) &&
      s.flashMessage == old(s.flashMessage) && s.flashType == old(s.flashType)
    ensures !outcome.BadRequest? ==>
      (outcome.MissingCredentials? <==> IsEmpty(SanitizeInput(rawUsername)) || IsEmpty(password))
    ensures !outcome.BadRequest? && !outcome.MissingCredentials? ==>
      var id := SanitizeInput(rawUsername);
      (outcome.Blocked? || outcome.LoggedIn? || outcome.BadCredentials?) &&
      (outcome.Blocked? <==> RateVerdict(old(s.Entry(id)), now).Locked?)
    ensures outcome.Blocked? ==>
      var id := SanitizeInput(rawUsername);
      RateVerdict(old(s.Entry(id)), now) == Locked(outcome.minutes) &&
      s.attempts == old(s.attempts) && s.user == old(s.user) &&
      s.lastActivity == old(s.lastActivity) && s.loginTime == old(s.loginTime) &&
      s.flashMessage == old(s.flashMessage) && s.flashType == old(s.flashType)
    ensures outcome.LoggedIn? ==>
      var id := SanitizeInput(rawUsername);
      outcome.userId in db.users &&
      var u := db.users[outcome.userId];
      Identifies(u, id) && verify(password, u.passwordHash) &&
      s.user == Some(SessionUser(outcome.userId, u.username, u.fullName, u.email)) &&
      s.lastActivity == Some(now) && s.loginTime == Some(now) &&
      s.attempts == ResetIfExpired(old(s.attempts), id, now) - {id} &&
      s.flashMessage == Some(SanitizeInput(WelcomeMessage(u.fullName))) && s.flashType == Some(SUCCESS)
    ensures outcome.BadCredentials? ==>
      var id := SanitizeInput(rawUsername);
      var checked := ResetIfExpired(old(s.attempts), id, now);
      s.attempts == checked[id := AfterFailure(if id in checked then Some(checked[id]) else None, now)] &&
      s.user == old(s.user) &&
      s.lastActivity == old(s.lastActivity) && s.loginTime == old(s.loginTime) &&
      s.flashMessage == old(s.flashMessage) && s.flashType == old(s.flashType) &&
      ((forall uid :: uid in db.users ==> !Identifies(db.users[uid], id)) ||
       (exists uid :: uid in db.users && Identifies(db.users[uid], id) && !verify(password, db.users[uid].passwordHash)))
  {
    if csrf.None? || !s.ValidateCsrfToken(csrf.value) {
      return BadRequest;
    }
    var username := SanitizeInput(rawUsername);
    if IsEmpty(username) || IsEmpty(password) {
      return MissingCredentials;
    }
    outcome := Authenticate(s, db, username, password, now, verify);
  }

  // ---------------------------------------------------------------- register.php

  /** The registration form as posted. */
  datatype RegisterForm = RegisterForm(
    username: string, email: string, fullName: string, phone: string,
    password: string, confirm: string)

  /** The sanitised form: every field but the two passwords goes through sanitizeInput. */
  function SanitizeRegistration(f: RegisterForm): RegisterForm {
    f.(username := SanitizeInput(f.username), email := SanitizeInput(f.email),
       fullName := SanitizeInput(f.fullName), phone := SanitizeInput(f.phone))
  }

  function Join(parts: seq<string>, sep: string): string {
    if parts == [] then "" else if |parts| == 1 then parts[0] else parts[0] + sep + Join(parts[1..], sep)
  }

  /** validateInput's filter_var hook: only the email kind is used here. */
  function EmailFilter(emailOk: string -> bool): (InputKind, string) -> bool {
    (k: InputKind, d: string) => emailOk(d)
  }

  /** The four required fields are present (not PHP-empty). */
  predicate RequiredPresent(f: RegisterForm) {
    !IsEmpty(f.username) && !IsEmpty(f.email) && !IsEmpty(f.fullName) && !IsEmpty(f.password)
  }

  /** A registration every check accepts. */
  predicate AcceptableRegistration(f: RegisterForm, minLength: int, emailOk: string -> bool) {
    RequiredPresent(f) &&
    ValidateInput(f.email, Email, EmailFilter(emailOk)) &&
    ValidateInput(f.username, Alphanumeric, EmailFilter(emailOk)) &&
    StrLen(f.username) >= 3 && f.password == f.confirm &&
    PasswordViolations(f.password, minLength) == []
  }

  /** The first failing check of register.php, in its order: required fields,
      email, alphanumeric username, username length, matching passwords,
      password strength (all its messages joined by '<br>'). */
  function RegistrationError(f: RegisterForm, minLength: int, emailOk: string -> bool): (r: Option<string>)
    ensures r.None? <==> AcceptableRegistration(f, minLength, emailOk)
    ensures IsEmpty(f.username) || IsEmpty(f.email) || IsEmpty(f.fullName) || IsEmpty(f.password) ==>
      r == Some("Please fill in all required fields")
    ensures RequiredPresent(f) && !ValidateInput(f.email, Email, EmailFilter(emailOk)) ==>
      r == Some("Invalid email address")
    ensures (RequiredPresent(f) && ValidateInput(f.email, Email, EmailFilter(emailOk)) &&
      !ValidateInput(f.username, Alphanumeric, EmailFilter(emailOk))) ==>
      r == Some("Username must contain only letters and numbers")
    ensures (RequiredPresent(f) && ValidateInput(f.email, Email, EmailFilter(emailOk)) &&
      ValidateInput(f.username, Alphanumeric, EmailFilter(emailOk)) && StrLen(f.username) < 3) ==>
      r == Some("Username must be at least 3 characters long")
    ensures (RequiredPresent(f) && ValidateInput(f.email, Email, EmailFilter(emailOk)) &&
      ValidateInput(f.username, Alphanumeric, EmailFilter(emailOk)) &&
      StrLen(f.username) >= 3 && f.password != f.confirm) ==>
      r == Some("Passwords do not match")
    ensures (RequiredPresent(f) && ValidateInput(f.email, Email, EmailFilter(emailOk)) &&
      ValidateInput(f.username, Alphanumeric, EmailFilter(emailOk)) &&
      StrLen(f.username) >= 3 && f.password == f.confirm && PasswordViolations(f.password, minLength) != []) ==>
      r == Some(Join(Messages(PasswordViolations(f.password, minLength), minLength), "<br>"))
  {
    var check := EmailFilter(emailOk);
    if !RequiredPresent(f) then Some("Please fill in all required fields")
    else if !ValidateInput(f.email, Email, check) then Some("Invalid email address")
    else if !ValidateInput(f.username, Alphanumeric, check) then Some("Username must contain only letters and numbers")
    else if StrLen(f.username) < 3 then Some("Username must be at least 3 characters long")
    else if f.password != f.confirm then Some("Passwords do not match")
    else
      var violations := PasswordViolations(f.password, minLength);
      if violations != [] then Some(Join(Messages(violations, minLength), "<br>"))
      else None
  }

  /** An accepted registration has a username that, once trimmed, is made of
      ASCII letters and digits only, so that strlen's three bytes are three
      characters, and a strong password. */
  lemma AcceptedRegistrationIsWellFormed(f: RegisterForm, minLength: int, emailOk: string -> bool)
    requires RegistrationError(f, minLength, emailOk).None?
    ensures |Trim(f.username)| > 0 && forall i :: 0 <= i < |Trim(f.username)| ==> IsAlnum(Trim(f.username)[i])
    ensures StrLen(f.username) == |f.username| && |f.username| >= 3
    ensures StrLen(f.password) >= minLength && HasUpper(f.password) && HasLower(f.password) && HasDigit(f.password)
  {
    assert AcceptableRegistration(f, minLength, emailOk);
    assert ValidateInput(f.username, Alphanumeric, EmailFilter(emailOk));
    AlnumUsernameIsAscii(f.username);
    assert PasswordViolations(f.password, minLength) == [];
  }

  /** A username whose trimmed form is ASCII letters and digits has as many
      bytes as characters. */
  lemma AlnumUsernameIsAscii(u: string)
    requires forall i :: 0 <= i < |Trim(u)| ==> IsAlnum(Trim(u)[i])
    ensures StrLen(u) == |u|
  {
    AsciiAroundTrim(u);
  }

  /** Why a registration was refused. */
  datatype Refusal = CsrfFailed | Invalid(message: string) | UsernameTaken | EmailTaken {
    function Message(): string {
      match this
      case CsrfFailed => "Invalid request. Please try again."
      case Invalid(m) => m
      case UsernameTaken => "Username already exists"
      case EmailTaken => "Email already registered"
    }
  }

  datatype RegisterOutcome = Registered(userId: int) | Rejected(why: Refusal)

  /** `SELECT user_id FROM users WHERE username = ?` finds a row. */
  predicate UsernameClaimed(users: map<int, User>, f: RegisterForm) {
    exists uid :: uid in users && users[uid].username == f.username
  }

  /** `SELECT user_id FROM users WHERE email = ?` finds a row. */
  predicate EmailClaimed(users: map<int, User>, f: RegisterForm) {
    exists uid :: uid in users && users[uid].email == f.email
  }

  /** No existing account has the form's username or its email. */
  predicate Unclaimed(users: map<int, User>, f: RegisterForm) {
    forall uid :: uid in users ==> users[uid].username != f.username && users[uid].email != f.email
  }

  /** register.php after the CSRF check, on the sanitised form: the
      validation chain, then username uniqueness, then email uniqueness, and
      only then one INSERT storing the hash of the password. */
  method CreateAccount(db: Database, f: RegisterForm, minLength: int,
                       emailOk: string -> bool, hash: string -> string) returns (outcome: RegisterOutcome)
    requires db.Valid()
    modifies db`users, db`nextUser
    ensures db.Valid()
    ensures outcome != Rejected(CsrfFailed)
    ensures outcome.Rejected? ==> db.users == old(db.users)
    ensures RegistrationError(f, minLength, emailOk).Some? ==>
      outcome == Rejected(Invalid(RegistrationError(f, minLength, emailOk).value))
    ensures outcome.Registered? <==> RegistrationError(f, minLength, emailOk).None? && Unclaimed(old(db.users), f)
    ensures outcome.Registered? ==>
      outcome.userId !in old(db.users) &&
      db.users == old(db.users)[outcome.userId := User(f.username, f.email, hash(f.password), f.fullName, f.phone)]
    ensures RegistrationError(f, minLength, emailOk).None? && UsernameClaimed(old(db.users), f) ==>
      outcome == Rejected(UsernameTaken)
    ensures (RegistrationError(f, minLength, emailOk).None? && !UsernameClaimed(old(db.users), f) &&
             EmailClaimed(old(db.users), f)) ==>
      outcome == Rejected(EmailTaken)
  {
    var error := RegistrationError(f, minLength, emailOk);
    if error.Some? {
      return Rejected(Invalid(error.value));
    }
    if UsernameClaimed(db.users, f) {
      return Rejected(UsernameTaken);
    }
    if EmailClaimed(db.users, f) {
      return Rejected(EmailTaken);
    }
    var id := db.InsertUser(User(f.username, f.email, hash(f.password), f.fullName, f.phone));
    return Registered(id);
  }

  /** The POST branch of register.php: a failed CSRF check refuses the form
      and changes nothing; otherwise the sanitised form goes to CreateAccount. */
  method Register(s: Session, db: Database, csrf: Option<string>, form: RegisterForm, minLength: int,
                  emailOk: string -> bool, hash: string -> string) returns (outcome: RegisterOutcome)
    requires db.Valid()
    modifies db`users, db`nextUser
    ensures db.Valid()
    ensures outcome == Rejected(CsrfFailed) <==> csrf.None? || !CsrfValid(s.csrfToken, csrf.value)
    ensures outcome.Rejected? ==> db.users == old(db.users)
    ensures outcome != Rejected(CsrfFailed) ==>
      var f := SanitizeRegistration(form);
      var error := RegistrationError(f, minLength, emailOk);
      (outcome.Registered? <==> error.None? && Unclaimed(old(db.users), f)) &&
      (error.Some? ==> outcome == Rejected(Invalid(error.value))) &&
      (error.None? && UsernameClaimed(old(db.users), f) ==> outcome == Rejected(UsernameTaken)) &&
      (error.None? && !UsernameClaimed(old(db.users), f) && EmailClaimed(old(db.users), f) ==>
         outcome == Rejected(EmailTaken))
    ensures outcome.Registered? ==>
      var f := SanitizeRegistration(form);
      outcome.userId !in old(db.users) &&
      db.users == old(db.users)[outcome.userId := User(f.username, f.email, hash(form.password), f.fullName, f.phone)]
  {
    if csrf.None? || !s.ValidateCsrfToken(csrf.value) {
      return Rejected(CsrfFailed);
    }
    outcome := CreateAccount(db, SanitizeRegistration(form), minLength, emailOk, hash);
  }

  // ---------------------------------------------------------------- profile.php

  /** The first failing check of the profile form (on sanitised fields). */
  function ProfileError(fullName: string, email: string, emailOk: string -> bool): (r: Option<string>)
    ensures r.None? <==> !IsEmpty(fullName) && !IsEmpty(email) && emailOk(email)
    ensures IsEmpty(fullName) || IsEmpty(email) ==> r == Some("Full name and email are required")
    ensures !IsEmpty(fullName) && !IsEmpty(email) && !emailOk(email) ==> r == Some("Invalid email address")
  {
    if IsEmpty(fullName) || IsEmpty(email) then Some("Full name and email are required")
    else if !emailOk(email) then Some("Invalid email address")
    else None
  }

  /** The success flashes of profile.php. */
  const PROFILE_UPDATED := "Profile updated successfully!"
  const PASSWORD_CHANGED := "Password changed successfully!"

  /** The e-mail uniqueness query and UPDATE of update_profile: refused, with
      nothing written, when another user already has the e-mail; otherwise
      the user's row (if it exists) takes the new name, e-mail and phone. */
  method SaveProfile(db: Database, uid: int, fullName: string, email: string, phone: string) returns (saved: bool)
    requires db.Valid()
    modifies db`users
    ensures db.Valid()
    ensures saved <==> forall k :: k in old(db.users) && k != uid ==> old(db.users)[k].email != email
    ensures !saved ==> db.users == old(db.users)
    ensures saved ==> db.users == if uid in old(db.users)
      then old(db.users)[uid := old(db.users)[uid].(fullName := fullName, email := email, phone := phone)]
      else old(db.users)
  {
    if exists k :: k in db.users && k != uid && db.users[k].email == email {
      return false;
    }
    if uid in db.users {
      db.UpdateUserRow(uid, db.users[uid].(fullName := fullName, email := email, phone := phone));
    }
    saved := true;
  }

  /** The update_profile branch for the logged-in user: the email may be the
      user's own but no other account's; on success the users row and the
      session's full name and email change together. */
  method UpdateProfile(s: Session, db: Database, rawFullName: string, rawEmail: string, rawPhone: string,
                       emailOk: string -> bool) returns (error: Option<string>)
    requires db.Valid() && s.user.Some?
    modifies db`users, s`user, s`flashMessage, s`flashType
    ensures db.Valid()
    ensures error.Some? ==> db.users == old(db.users) && s.user == old(s.user)
    ensures var uid := old(s.user).value.userId;
      var fullName := SanitizeInput(rawFullName);
      var email := SanitizeInput(rawEmail);
      (error.None? <==>
        ProfileError(fullName, email, emailOk).None? &&
        forall k :: k in old(db.users) && k != uid ==> old(db.users)[k].email != email) &&
      (error.None? ==>
        db.users == (if uid in old(db.users)
                     then old(db.users)[uid := old(db.users)[uid].(fullName := fullName, email := email, phone := SanitizeInput(rawPhone))]
                     else old(db.users)) &&
        s.user == Some(old(s.user).value.(fullName := fullName, email := email)))
    ensures var fullName := SanitizeInput(rawFullName);
      var email := SanitizeInput(rawEmail);
      ProfileError(fullName, email, emailOk).Some? ==> error == ProfileError(fullName, email, emailOk)
    ensures var uid := old(s.user).value.userId;
      var fullName := SanitizeInput(rawFullName);
      var email := SanitizeInput(rawEmail);
      ProfileError(fullName, email, emailOk).None? &&
      (exists k :: k in old(db.users) && k != uid && old(db.users)[k].email == email) ==>
        error == Some("Email already in use by another account")
    ensures error.None? ==> s.flashMessage == Some(SanitizeInput(PROFILE_UPDATED)) && s.flashType == Some(SUCCESS)
    ensures error.Some? ==> s.flashMessage == old(s.flashMessage) && s.flashType == old(s.flashType)
  {
    var uid := s.user.value.userId;
    var fullName := SanitizeInput(rawFullName);
    var email := SanitizeInput(rawEmail);
    var phone := SanitizeInput(rawPhone);
    error := ProfileError(fullName, email, emailOk);
    if error.Some? {
      return;
    }
    var saved := SaveProfile(db, uid, fullName, email, phone);
    if !saved {
      return Some("Email already in use by another account");
    }
    s.user := Some(s.user.value.(fullName := fullName, email := email));
    s.SetFlashMessage(PROFILE_UPDATED, SUCCESS);
  }

  /** The first failing check of the password form. */
  function PasswordChangeError(current: string, newPassword: string, confirm: string, minLength: int): (r: Option<string>)
    ensures r.None? <==>
      !IsEmpty(current) && !IsEmpty(newPassword) && !IsEmpty(confirm) &&
      StrLen(newPassword) >= minLength && newPassword == confirm
    ensures IsEmpty(current) || IsEmpty(newPassword) || IsEmpty(confirm) ==> r == Some("All password fields are required")
    ensures !IsEmpty(current) && !IsEmpty(newPassword) && !IsEmpty(confirm) && StrLen(newPassword) < minLength ==>
      r == Some("New password must be at least " + IntToString(minLength) + " characters long")
    ensures (!IsEmpty(current) && !IsEmpty(newPassword) && !IsEmpty(confirm) &&
             StrLen(newPassword) >= minLength && newPassword != confirm) ==>
      r == Some("New passwords do not match")
    ensures r == Some("New passwords do not match") ==> StrLen(newPassword) >= minLength && newPassword != confirm
  {
    if IsEmpty(current) || IsEmpty(newPassword) || IsEmpty(confirm) then Some("All password fields are required")
    else if StrLen(newPassword) < minLength then Some("New password must be at least " + IntToString(minLength) + " characters long")
    else if newPassword != confirm then Some("New passwords do not match")
    else None
  }

  /** The UPDATE of change_password: the user's stored hash becomes the hash
      of the new password exactly when the current password verifies against
      it; otherwise the table is untouched. */
  method ReplacePassword(db: Database, uid: int, current: string, newPassword: string,
                         verify: (string, string) -> bool, hash: string -> string) returns (replaced: bool)
    requires db.Valid()
    modifies db`users
    ensures db.Valid()
    ensures replaced <==> uid in old(db.users) && verify(current, old(db.users)[uid].passwordHash)
    ensures replaced ==> db.users == old(db.users)[uid := old(db.users)[uid].(passwordHash := hash(newPassword))]
    ensures !replaced ==> db.users == old(db.users)
  {
    replaced := uid in db.users && verify(current, db.users[uid].passwordHash);
    if replaced {
      db.UpdateUserRow(uid, db.users[uid].(passwordHash := hash(newPassword)));
    }
  }

  /** The change_password branch: the stored hash is replaced by the hash of
      the new password only when the current one verifies against it. */
  method ChangePassword(s: Session, db: Database, current: string, newPassword: string, confirm: string,
                        minLength: int, verify: (string, string) -> bool, hash: string -> string)
    returns (error: Option<string>)
    requires db.Valid() && s.user.Some?
    modifies db`users, s`flashMessage, s`flashType
    ensures db.Valid()
    ensures error.Some? ==> db.users == old(db.users)
    ensures var uid := s.user.value.userId;
      error.None? <==>
        PasswordChangeError(current, newPassword, confirm, minLength).None? &&
        uid in old(db.users) && verify(current, old(db.users)[uid].passwordHash)
    ensures error.None? ==>
      var uid := s.user.value.userId;
      db.users == old(db.users)[uid := old(db.users)[uid].(passwordHash := hash(newPassword))]
    ensures PasswordChangeError(current, newPassword, confirm, minLength).Some? ==>
      error == PasswordChangeError(current, newPassword, confirm, minLength)
    ensures PasswordChangeError(current, newPassword, confirm, minLength).None? && error.Some? ==>
      error == Some("Current password is incorrect")
    ensures error.None? ==> s.flashMessage == Some(SanitizeInput(PASSWORD_CHANGED)) && s.flashType == Some(SUCCESS)
    ensures error.Some? ==> s.flashMessage == old(s.flashMessage) && s.flashType == old(s.flashType)
  {
    error := PasswordChangeError(current, newPassword, confirm, minLength);
    if error.None? {
      var replaced := ReplacePassword(db, s.user.value.userId, current, newPassword, verify, hash);
      if replaced {
        s.SetFlashMessage(PASSWORD_CHANGED, SUCCESS);
      } else {
        error := Some("Current password is incorrect");
      }
    }
  }
}
