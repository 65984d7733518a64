/** config/config.php: input sanitising and validation, password strength,
    rounding of mileage, and the `$_SESSION`-backed state machines (login
    rate limiter, session timeout, CSRF token, one-shot flash message). */
module Config {
  import opened Php

  // ---------------------------------------------------------------- constants

  const MAX_LOGIN_ATTEMPTS: int := 5
  /** Lockout window of the login rate limiter, in seconds. */
  const LOGIN_TIMEOUT: int := 900
  /** Default of SESSION_TIMEOUT when the environment does not set it, in seconds. */
  const DEFAULT_SESSION_TIMEOUT: int := 3600
  /** Default of PASSWORD_MIN_LENGTH when the environment does not set it. */
  const DEFAULT_PASSWORD_MIN_LENGTH: int := 8
  const REMINDER_WARNING_DAYS: int := 7
  /** A CSRF token older than this many seconds is replaced. */
  const CSRF_TOKEN_LIFETIME: int := 3600

  // ---------------------------------------------------------------- sanitizeInput

  /** PHP stripslashes(): a backslash is dropped and the character after it is
      kept literally, except that backslash-zero becomes NUL; a lone trailing
      backslash disappears. */
  function StripSlashes(s: string): (r: string)
    ensures |r| <= |s|
    ensures (forall i :: 0 <= i < |s| ==> s[i] != '\\') ==> r == s
  {
    if s == [] then []
    else if s[0] != '\\' then [s[0]] + StripSlashes(s[1..])
    else if |s| == 1 then []
    else (if s[1] == '0' then ['\0'] else [s[1]]) + StripSlashes(s[2..])
  }

  /** PHP addslashes(), the inverse that stripslashes() undoes. */
  function AddSlashes(s: string): string
  {
    if s == [] then []
    else if s[0] == '\0' then "\\0" + AddSlashes(s[1..])
    else if s[0] == '\\' || s[0] == '\'' || s[0] == '"' then ['\\', s[0]] + AddSlashes(s[1..])
    else [s[0]] + AddSlashes(s[1..])
  }

  /** stripslashes undoes addslashes on every string. */
  lemma {:induction false} StripSlashesUndoesAddSlashes(s: string)
    ensures StripSlashes(AddSlashes(s)) == s
  {
    if s != [] {
      StripSlashesUndoesAddSlashes(s[1..]);
      var t := AddSlashes(s[1..]);
      if s[0] == '\0' {
        assert AddSlashes(s) == ['\\', '0'] + t;
        assert (['\\', '0'] + t)[2..] == t;
      } else if s[0] == '\\' || s[0] == '\'' || s[0] == '"' {
        assert (['\\', s[0]] + t)[2..] == t;
      } else {
        assert ([s[0]] + t)[1..] == t;
      }
    }
  }

  /** The characters htmlspecialchars() rewrites with ENT_QUOTES. */
  predicate IsHtmlSpecial(c: char) { c == '&' || c == '"' || c == '\'' || c == '<' || c == '>' }

  function EscapeChar(c: char): (r: string)
    ensures |r| > 0 && (r[0] == '&' <==> IsHtmlSpecial(c))
    ensures forall i :: 0 <= i < |r| ==> !(r[i] in "<>\"'")
  {
    match c
    case '&' => "&amp;"
    case '"' => "&quot;"
    case '\'' => "&#039;"
    case '<' => "&lt;"
    case '>' => "&gt;"
    case _ => [c]
  }

  /** htmlspecialchars($s, ENT_QUOTES, 'UTF-8'): every special character is
      replaced by its entity; the result has no raw angle bracket or quote. */
  function HtmlEscape(s: string): (r: string)
    ensures forall i :: 0 <= i < |r| ==> !(r[i] in "<>\"'")
    ensures (forall i :: 0 <= i < |s| ==> !IsHtmlSpecial(s[i])) ==> r == s
  {
    if s == [] then [] else EscapeChar(s[0]) + HtmlEscape(s[1..])
  }

  /** htmlspecialchars_decode($s, ENT_QUOTES): the entities above are turned
      back into their characters, anything else is kept. */
  function HtmlDecode(t: string): string
  {
    if t == [] then []
    else if t[0] != '&' then [t[0]] + HtmlDecode(t[1..])
    else if |t| >= 5 && t[..5] == "&amp;" then "&" + HtmlDecode(t[5..])
    else if |t| >= 6 && t[..6] == "&quot;" then "\"" + HtmlDecode(t[6..])
    else if |t| >= 6 && t[..6] == "&#039;" then "'" + HtmlDecode(t[6..])
    else if |t| >= 4 && t[..4] == "&lt;" then "<" + HtmlDecode(t[4..])
    else if |t| >= 4 && t[..4] == "&gt;" then ">" + HtmlDecode(t[4..])
    else [t[0]] + HtmlDecode(t[1..])
  }

  lemma DecodeEscapedChar(c: char, rest: string)
    ensures HtmlDecode(EscapeChar(c) + rest) == [c] + HtmlDecode(rest)
  {
    if !IsHtmlSpecial(c) {
      var t := [c] + rest;
      assert t[0] == c && t[1..] == rest;
    } else if c == '&' {
      DecodeAmp(rest);
    } else if c == '"' {
      DecodeQuot(rest);
    } else if c == '\'' {
      DecodeApos(rest);
    } else {
      DecodeAngle(c, rest);
    }
  }

  lemma DecodeAmp(rest: string)
    ensures HtmlDecode("&amp;" + rest) == "&" + HtmlDecode(rest)
  {
    var t := "&amp;" + rest;
    assert t[..5] == "&amp;" && t[5..] == rest;
  }

  lemma DecodeQuot(rest: string)
    ensures HtmlDecode("&quot;" + rest) == "\"" + HtmlDecode(rest)
  {
    var t := "&quot;" + rest;
    assert t[..6] == "&quot;" && t[6..] == rest;
    assert t[..5] != "&amp;" by { assert t[1] == 'q'; }
  }

  lemma DecodeApos(rest: string)
    ensures HtmlDecode("&#039;" + rest) == "'" + HtmlDecode(rest)
  {
    var t := "&#039;" + rest;
    assert t[..6] == "&#039;" && t[6..] == rest;
    assert t[..5] != "&amp;" && t[..6] != "&quot;" by { assert t[1] == '#'; }
  }

  /** Both angle-bracket entities, `&lt;` and `&gt;`, decode to their character. */
  lemma DecodeAngle(c: char, rest: string)
    requires c == '<' || c == '>'
    ensures HtmlDecode(EscapeChar(c) + rest) == [c] + HtmlDecode(rest)
  {
    if c == '<' {
      assert EscapeChar(c) == "&lt;";
      var t := "&lt;" + rest;
      assert t[..4] == "&lt;" && t[4..] == rest;
      assert t[1] == 'l';
    } else {
      assert EscapeChar(c) == "&gt;";
      var t := "&gt;" + rest;
      assert t[..4] == "&gt;" && t[4..] == rest;
      assert t[1] == 'g';
    }
  }

  /** Escaping loses nothing: decoding the escaped text gives the input back. */
  lemma {:induction false} HtmlDecodeEscape(s: string)
    ensures HtmlDecode(HtmlEscape(s)) == s
  {
    if s != [] {
      DecodeEscapedChar(s[0], HtmlEscape(s[1..]));
      HtmlDecodeEscape(s[1..]);
    }
  }

  /** sanitizeInput(): trim, then stripslashes, then htmlspecialchars.
      The stored text carries no raw markup character. */
  function SanitizeInput(data: string): (r: string)
    ensures forall i :: 0 <= i < |r| ==> !(r[i] in "<>\"'")
  {
    HtmlEscape(StripSlashes(Trim(data)))
  }

  /** Nothing but blanks and backslashes is lost: decoding the stored text
      gives back the trimmed, unslashed input. */
  lemma SanitizeRoundTrip(data: string)
    ensures HtmlDecode(SanitizeInput(data)) == StripSlashes(Trim(data))
  {
    HtmlDecodeEscape(StripSlashes(Trim(data)));
  }

  /** A form number typed without spaces (an odometer reading, say) passes
      through sanitizeInput unchanged. */
  lemma SanitizeDigits(data: string)
    requires AllDigits(data)
    ensures SanitizeInput(data) == data
  {
    if data != [] {
      assert !IsTrimChar(data[0]) && !IsTrimChar(data[|data| - 1]);
    }
    TrimOfTrimmed(data);
  }

  // ---------------------------------------------------------------- validateInput

  /** The `$type` argument of validateInput. Kinds decided by filter_var,
      is_numeric or DateTime are answered by a caller-supplied check. */
  datatype InputKind =
    | Email | Number | Integer | Float | Url | Date
    | Phone | Alpha | Alphanumeric
    | Other(name: string)

  predicate IsExternalKind(k: InputKind) {
    k.Email? || k.Number? || k.Integer? || k.Float? || k.Url? || k.Date?
  }

  /** validateInput($data, $type): the data is trimmed first; phone is 10 to
      15 ASCII digits, alpha / alphanumeric a non-empty run of ASCII letters
      (and digits), any unknown type means "not empty" (so "0" fails). */
  function ValidateInput(data: string, kind: InputKind, external: (InputKind, string) -> bool): (ok: bool)
    ensures kind.Phone? ==> (ok <==> 10 <= |Trim(data)| <= 15 && AllDigits(Trim(data)))
    ensures kind.Alpha? ==> (ok <==> |Trim(data)| > 0 && forall i :: 0 <= i < |Trim(data)| ==> IsAlpha(Trim(data)[i]))
    ensures kind.Alphanumeric? ==> (ok <==> |Trim(data)| > 0 && forall i :: 0 <= i < |Trim(data)| ==> IsAlnum(Trim(data)[i]))
    ensures kind.Other? ==> (ok <==> Trim(data) != "" && Trim(data) != "0")
    ensures IsExternalKind(kind) ==> ok == external(kind, Trim(data))
  {
    var d := Trim(data);
    match kind
    case Phone => 10 <= |d| <= 15 && AllDigits(d)
    case Alpha => |d| > 0 && forall i :: 0 <= i < |d| ==> IsAlpha(d[i])
    case Alphanumeric => |d| > 0 && forall i :: 0 <= i < |d| ==> IsAlnum(d[i])
    case Other(_) => !IsEmpty(d)
    case _ => external(kind, d)
  }

  // ---------------------------------------------------------------- password strength

  /** The four checks of validatePasswordStrength, in the order it runs them. */
  datatype PasswordRule = TooShort | NoUppercase | NoLowercase | NoDigit {
    function Rank(): nat {
      match this
      case TooShort => 0
      case NoUppercase => 1
      case NoLowercase => 2
      case NoDigit => 3
    }
    function Message(minLength: int): string {
      match this
      case TooShort => "Password must be at least " + IntToString(minLength) + " characters long"
      case NoUppercase => "Password must contain at least one uppercase letter"
      case NoLowercase => "Password must contain at least one lowercase letter"
      case NoDigit => "Password must contain at least one number"
    }
  }

  predicate HasUpper(p: string) { exists i :: 0 <= i < |p| && IsUpper(p[i]) }
  predicate HasLower(p: string) { exists i :: 0 <= i < |p| && IsLower(p[i]) }
  predicate HasDigit(p: string) { exists i :: 0 <= i < |p| && IsDigit(p[i]) }

  predicate Violates(p: string, minLength: int, rule: PasswordRule) {
    match rule
    case TooShort => StrLen(p) < minLength
    case NoUppercase => !HasUpper(p)
    case NoLowercase => !HasLower(p)
    case NoDigit => !HasDigit(p)
  }

  /** validatePasswordStrength: exactly the violated rules, in the fixed order
      length (strlen, so in bytes), uppercase, lowercase, digit. The password is strong (PHP `true`)
      iff the list is empty. */
  function PasswordViolations(p: string, minLength: int): (r: seq<PasswordRule>)
    ensures forall rule :: rule in r <==> Violates(p, minLength, rule)
    ensures forall i, j :: 0 <= i < j < |r| ==> r[i].Rank() < r[j].Rank()
    ensures r == [] <==> (StrLen(p) >= minLength && HasUpper(p) && HasLower(p) && HasDigit(p))
  {
    (if StrLen(p) < minLength then [TooShort] else []) +
    (if !HasUpper(p) then [NoUppercase] else []) +
    (if !HasLower(p) then [NoLowercase] else []) +
    (if !HasDigit(p) then [NoDigit] else [])
  }

  /** The length rule counts bytes: a password of seven characters, one of
      them the two-byte 'Á', meets the default minimum of eight. */
  lemma LengthRuleCountsBytes()
    ensures |"\U{00C1}Bcdef1"| == 7 && StrLen("\U{00C1}Bcdef1") == 8
    ensures PasswordViolations("\U{00C1}Bcdef1", DEFAULT_PASSWORD_MIN_LENGTH) == []
  {
    var p := "\U{00C1}Bcdef1";
    assert StrLen(p) == 2 + StrLen(p[1..]);
    assert IsUpper(p[1]) && IsLower(p[2]) && IsDigit(p[6]);
  }

  function Messages(rules: seq<PasswordRule>, minLength: int): (m: seq<string>)
    ensures |m| == |rules|
    ensures forall i :: 0 <= i < |rules| ==> m[i] == rules[i].Message(minLength)
  {
    if rules == [] then [] else [rules[0].Message(minLength)] + Messages(rules[1..], minLength)
  }

  // ---------------------------------------------------------------- round / calculateMileage

  /** PHP round($x, 2), as a whole number of hundredths: the nearest one,
      halves rounded away from zero. */
  function RoundHundredths(x: real): (h: int)
    ensures x >= 0.0 ==> 100.0 * x - 0.5 < h as real <= 100.0 * x + 0.5
    ensures x < 0.0 ==> 100.0 * x - 0.5 <= h as real < 100.0 * x + 0.5
  {
    if x >= 0.0 then (100.0 * x + 0.5).Floor else -((-100.0 * x) + 0.5).Floor
  }

  /** Rounding is symmetric about zero. */
  lemma RoundHundredthsOdd(x: real)
    ensures RoundHundredths(-x) == -RoundHundredths(x)
  {
  }

  /** calculateMileage($distance, $fuel): 0 when no fuel was put in,
      otherwise distance per litre rounded to hundredths. */
  function CalculateMileage(distance: real, fuel: real): (h: int)
    ensures fuel <= 0.0 ==> h == 0
    ensures fuel > 0.0 ==> h == RoundHundredths(distance / fuel)
    ensures fuel > 0.0 && distance >= 0.0 ==> 100.0 * (distance / fuel) - 0.5 < h as real <= 100.0 * (distance / fuel) + 0.5
    ensures fuel > 0.0 && distance >= 0.0 ==> h >= 0
  {
    if fuel <= 0.0 then 0 else RoundHundredths(distance / fuel)
  }

  // ---------------------------------------------------------------- login rate limiter

  /** One `login_attempts_<md5>` session entry. */
  datatype Attempt = Attempt(count: int, since: int)

  datatype RateCheck = Allowed | Locked(remainingMinutes: int)

  /** PHP ceil($a / $b) for a positive divisor. */
  function CeilDiv(a: int, b: int): (q: int)
    requires b > 0
    ensures b * (q - 1) < a <= b * q
  {
    -((-a) / b)
  }

  /** True when the stored entry has outlived the lockout window. */
  predicate Expired(entry: Attempt, now: int) { now - entry.since > LOGIN_TIMEOUT }

  /** checkLoginAttempts' verdict for the stored entry (None: nothing stored,
      which behaves as {count 0, time now}). Locked exactly when the entry is
      inside its window and has reached MAX_LOGIN_ATTEMPTS failures; the
      minutes left are the window's remaining seconds rounded up to minutes. */
  function RateVerdict(entry: Option<Attempt>, now: int): (r: RateCheck)
    ensures r.Locked? <==> entry.Some? && !Expired(entry.value, now) && entry.value.count >= MAX_LOGIN_ATTEMPTS
    ensures r.Locked? ==>
      var left := LOGIN_TIMEOUT - (now - entry.value.since);
      60 * (r.remainingMinutes - 1) < left <= 60 * r.remainingMinutes
    ensures r.Locked? && now >= entry.value.since ==> 0 <= r.remainingMinutes <= 15
  {
    match entry
    case None => Allowed
    case Some(a) =>
      if Expired(a, now) then Allowed
      else if a.count >= MAX_LOGIN_ATTEMPTS then Locked(CeilDiv(LOGIN_TIMEOUT - (now - a.since), 60))
      else Allowed
  }

  /** recordLoginAttempt($id, false) on the stored entry: one more failure,
      the window keeps its original start (or opens now). */
  function AfterFailure(entry: Option<Attempt>, now: int): (a: Attempt)
    ensures entry.None? ==> a == Attempt(1, now)
    ensures entry.Some? ==> a.count == entry.value.count + 1 && a.since == entry.value.since
  {
    var base := entry.GetOr(Attempt(0, now));
    Attempt(base.count + 1, base.since)
  }

  /** The attempts after checkLoginAttempts($id): an entry whose window has
      expired restarts at {0, now}; every other entry is left alone. */
  function ResetIfExpired(attempts: map<string, Attempt>, id: string, now: int): (r: map<string, Attempt>)
    ensures r.Keys == attempts.Keys
    ensures forall k :: k in attempts && k != id ==> r[k] == attempts[k]
    ensures id in attempts && Expired(attempts[id], now) ==> r[id] == Attempt(0, now)
    ensures id in attempts && !Expired(attempts[id], now) ==> r[id] == attempts[id]
  {
    if id in attempts && Expired(attempts[id], now) then attempts[id := Attempt(0, now)] else attempts
  }

  /** A failure recorded after the check opens a fresh window at one failure
      when the old window had expired, and otherwise adds one to its count. */
  lemma FailureAfterCheck(attempts: map<string, Attempt>, id: string, now: int)
    requires id in attempts
    ensures var r := ResetIfExpired(attempts, id, now);
      var a := AfterFailure(Some(r[id]), now);
      (Expired(attempts[id], now) ==> a == Attempt(1, now)) &&
      (!Expired(attempts[id], now) ==> a == Attempt(attempts[id].count + 1, attempts[id].since))
  {
  }

  /** The entry after `n` failed logins recorded from an empty slot, the first at `start`. */
  function FailuresFrom(start: int, times: seq<int>): Option<Attempt>
  {
    if times == [] then None
    else Some(AfterFailure(FailuresFrom(start, times[..|times| - 1]), if |times| == 1 then start else times[|times| - 1]))
  }

  /** After failed logins recorded one after another from an empty slot, the
      count is their number and the window opened at the first one; so the
      fifth failure locks the identifier for the rest of that window. */
  lemma {:induction false} FailuresCounted(start: int, times: seq<int>)
    requires |times| > 0
    ensures FailuresFrom(start, times) == Some(Attempt(|times|, start))
  {
    if |times| > 1 {
      FailuresCounted(start, times[..|times| - 1]);
    }
  }

  lemma FifthFailureLocks(start: int, times: seq<int>, now: int)
    requires |times| >= MAX_LOGIN_ATTEMPTS
    requires start <= now <= start + LOGIN_TIMEOUT
    ensures RateVerdict(FailuresFrom(start, times), now).Locked?
  {
    FailuresCounted(start, times);
  }

  // ---------------------------------------------------------------- session

  /** The logged-in user's fields kept in `$_SESSION`. */
  datatype SessionUser = SessionUser(userId: int, username: string, fullName: string, email: string)

  datatype Flash = Flash(message: string, kind: string)

  /** The flash type of every confirmation the pages show. */
  const SUCCESS := "success"

  /** The flash types setFlashMessage keeps; any other becomes 'info'. */
  function FlashKind(kind: string): (k: string)
    ensures k in {"success", "error", "warning", "info"}
    ensures kind in {"success", "error", "warning", "info"} ==> k == kind
  {
    if kind in {"success", "error", "warning", "info"} then kind else "info"
  }

  /** validateCSRFToken on the stored token: false when none is stored or the
      submitted one is PHP-empty, otherwise whether the two are equal. */
  function CsrfValid(stored: Option<string>, token: string): (ok: bool)
    ensures ok <==> stored.Some? && !IsEmpty(token) && token == stored.value
  {
    stored.Some? && !IsEmpty(token) && stored.value == token
  }

  /** Whether generateCSRFToken must mint a new token: none stored, no time
      stored, or the stored one is more than an hour old. */
  predicate CsrfStale(token: Option<string>, time: Option<int>, now: int) {
    token.None? || time.None? || now - time.value > CSRF_TOKEN_LIFETIME
  }

  /** One PHP session (`$_SESSION`) restricted to the keys the core uses. */
  class Session {
    var user: Option<SessionUser>
    var lastActivity: Option<int>
    var loginTime: Option<int>
    var csrfToken: Option<string>
    var csrfTime: Option<int>
    /** `login_attempts_<md5(identifier)>` entries, keyed by the identifier. */
    var attempts: map<string, Attempt>
    var flashMessage: Option<string>
    var flashType: Option<string>

    constructor ()
      ensures user.None? && lastActivity.None? && loginTime.None?
      ensures csrfToken.None? && csrfTime.None? && attempts == map[]
      ensures flashMessage.None? && flashType.None?
    {
      user, lastActivity, loginTime := None, None, None;
      csrfToken, csrfTime, attempts := None, None, map[];
      flashMessage, flashType := None, None;
    }

    /** session_unset(): every key is removed. */
    method Clear()
      modifies this
      ensures user.None? && lastActivity.None? && loginTime.None?
      ensures csrfToken.None? && csrfTime.None? && attempts == map[]
      ensures flashMessage.None? && flashType.None?
    {
      user, lastActivity, loginTime := None, None, None;
      csrfToken, csrfTime, attempts := None, None, map[];
      flashMessage, flashType := None, None;
    }

    function Entry(id: string): Option<Attempt>
      reads this
    {
      if id in attempts then Some(attempts[id]) else None
    }

    /** checkLoginAttempts: an expired entry is reset to {0, now} (and access
        allowed); otherwise nothing is written and the verdict is returned. */
    method CheckLoginAttempts(id: string, now: int) returns (r: RateCheck)
      modifies this`attempts
      ensures r == RateVerdict(old(Entry(id)), now)
      ensures attempts == ResetIfExpired(old(attempts), id, now)
    {
      r := RateVerdict(Entry(id), now);
      if id in attempts && Expired(attempts[id], now) {
        attempts := attempts[id := Attempt(0, now)];
      }
    }

    /** recordLoginAttempt: success removes the entry, failure stores one more failure. */
    method RecordLoginAttempt(id: string, success: bool, now: int)
      modifies this`attempts
      ensures success ==> attempts == old(attempts) - {id}
      ensures !success ==> attempts == old(attempts)[id := AfterFailure(old(Entry(id)), now)]
    {
      if success {
        attempts := attempts - {id};
      } else {
        attempts := attempts[id := AfterFailure(Entry(id), now)];
      }
    }

    /** checkSessionTimeout: more than `timeout` seconds since the last
        activity ends the session (false, everything cleared); otherwise the
        activity time becomes now (true). */
    method CheckSessionTimeout(now: int, timeout: int) returns (alive: bool)
      modifies this
      ensures alive <==> old(lastActivity).None? || now - old(lastActivity).value <= timeout
      ensures !alive ==> user.None? && lastActivity.None? && loginTime.None? && attempts == map[]
                         && csrfToken.None? && csrfTime.None? && flashMessage.None? && flashType.None?
      ensures alive ==> lastActivity == Some(now) && user == old(user) && attempts == old(attempts)
                        && csrfToken == old(csrfToken) && csrfTime == old(csrfTime)
                        && flashMessage == old(flashMessage) && flashType == old(flashType)
                        && loginTime == old(loginTime)
    {
      if lastActivity.Some? && now - lastActivity.value > timeout {
        Clear();
        return false;
      }
      lastActivity := Some(now);
      return true;
    }

    /** generateCSRFToken: the stored token while at most an hour old,
        otherwise `minted` (bin2hex(random_bytes(32))) stamped with now. */
    method GenerateCsrfToken(now: int, minted: string) returns (token: string)
      modifies this`csrfToken, this`csrfTime
      ensures !CsrfStale(old(csrfToken), old(csrfTime), now) ==>
        token == old(csrfToken).value && csrfToken == old(csrfToken) && csrfTime == old(csrfTime)
      ensures CsrfStale(old(csrfToken), old(csrfTime), now) ==>
        token == minted && csrfToken == Some(minted) && csrfTime == Some(now)
      ensures csrfToken == Some(token)
    {
      if CsrfStale(csrfToken, csrfTime, now) {
        csrfToken := Some(minted);
        csrfTime := Some(now);
      }
      token := csrfToken.value;
    }

    /** validateCSRFToken on this session. */
    function ValidateCsrfToken(token: string): (ok: bool)
      reads this
      ensures ok ==> csrfToken == Some(token) && !IsEmpty(token)
      ensures csrfToken == Some(token) && !IsEmpty(token) ==> ok
    {
      CsrfValid(csrfToken, token)
    }

    /** setFlashMessage: the sanitised message and a known type are stored. */
    method SetFlashMessage(message: string, kind: string)
      modifies this`flashMessage, this`flashType
      ensures flashMessage == Some(SanitizeInput(message))
      ensures flashType == Some(FlashKind(kind))
    {
      flashMessage := Some(SanitizeInput(message));
      flashType := Some(FlashKind(kind));
    }

    /** getFlashMessage: returns the stored message once (type defaulting to
        'info') and removes it, so the next call returns null. */
    method GetFlashMessage() returns (f: Option<Flash>)
      modifies this`flashMessage, this`flashType
      ensures old(flashMessage).None? ==> f.None? && flashMessage == old(flashMessage) && flashType == old(flashType)
      ensures old(flashMessage).Some? ==>
        f == Some(Flash(old(flashMessage).value, old(flashType).GetOr("info"))) && flashMessage.None? && flashType.None?
    {
      if flashMessage.Some? {
        f := Some(Flash(flashMessage.value, flashType.GetOr("info")));
        flashMessage, flashType := None, None;
      } else {
        f := None;
      }
    }
  }

  /** A flash message is delivered exactly once: set, read, read again gives null. */
  method FlashShownOnce(s: Session, message: string, kind: string) returns (first: Option<Flash>, second: Option<Flash>)
    modifies s
    ensures first == Some(Flash(SanitizeInput(message), FlashKind(kind)))
    ensures second.None?
  {
    s.SetFlashMessage(message, kind);
    first := s.GetFlashMessage();
    second := s.GetFlashMessage();
  }
}
