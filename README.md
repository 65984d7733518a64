# MotoTrack core in Dafny

MotoTrack is a PHP web application that keeps a motorcycle's records: bikes, fuel
fills, trips, service records and reminders, per user, behind a login. This project
models the logic under the page handlers, and proves what that logic guarantees.
It covers the following.

- **The odometer ledger.** The MySQL tables are maps from row id to row in a
  `Database` class. Every write is scoped by (row id, user id). A bike's
  `current_odometer` has three writers:
  - a fuel fill raises it to the new reading only when that reading is higher;
  - a trip add overwrites it with the end reading;
  - a bike edit overwrites it with the submitted value.
- **The mileage of a fill.** A fill's mileage (km/l in integer hundredths) comes from the
  previous fill: the one with the largest reading below the new one. The previous fill's
  quantity is the divisor.
- **Derived figures.**
  - the listing statistics of the fuel and service pages;
  - the reminder urgency badge, and the reminders listing's filter and order;
  - the dashboard's baseline odometer, distance, cost per km and day label;
  - the report's scope, aggregates and guarded averages.
- **The `$_SESSION` state machines** (`Session` class):
  - the login rate limiter (5 failures in 900 s);
  - the session timeout;
  - the CSRF token lifetime;
  - the one-shot flash message.
- **Validators and request flows.**
  - `sanitizeInput` and `validateInput`, and the password-strength checks;
  - the login, registration and profile flows as first-error chains followed by
    guarded writes.
- **The `.env` reader.** The line parser writes `$_ENV`, `$_SERVER` and the process
  environment (`Environment` class), and `env()` looks values up and coerces them.
- **The browser's number formatting** (assets/js/script.js): `formatNumber`'s
  comma-grouping regex, `formatCurrency`, `calculateMileage` and the toast icon map.

Opaque primitives are parameters of the operations that use them:
- `password_hash` and `password_verify`;
- `filter_var`'s e-mail, URL, integer and float checks;
- `random_bytes`;
- the clock (`now`, in seconds);
- `strtotime` (dates arrive as epoch seconds).

Module layout:
- `php.dfy` (Php): `Option` and PHP string helpers: `trim`, `strtolower`, `empty()` and
  integer printing.
- `config.dfy` (Config): config/config.php.
- `env.dfy` (Env): config/env.php.
- `ledger.dfy` (Ledger): the tables and the handlers of bikes.php, fuel.php, trips.php,
  service.php and reminders.php.
- `urgency.dfy` (Urgency): the reminders listing.
- `dashboard.dfy` (Dashboard): dashboard.php.
- `reports.dfy` (Reports): reports.php.
- `auth.dfy` (Auth): login.php, register.php and profile.php.
- `format.dfy` (Format): assets/js/script.js.

Reminders without a due date are listed first within their group. reminders.php:114
sorts `due_date ASC`, and MySQL puts NULL first in ascending order, so the model
orders them that way.

## Model

| member | source | states |
|---|---|---|
| Php.Trim | config/config.php:90 | PHP trim(): the result is the input with the blank characters (space, tab, LF, CR, NUL, vertical tab) removed from both ends, and nothing else |
| Php.TrimPadded | config/env.php:16 | trim() of a text padded with blanks on both sides gives back exactly that text, when the text neither starts nor ends with a blank |
| Php.StrLen | config/config.php:255 | strlen: the UTF-8 byte count, at least the character count and equal to it exactly for ASCII text |
| Php.ToLower | config/env.php:70 | strtolower keeps the length and lowers exactly the ASCII capitals |
| Php.IntToString | config/config.php:256 | the decimal text of an integer: a leading '-' exactly for negatives, digits reading back as the magnitude, no leading zero |
| Config.StripSlashes | config/config.php:91 | stripslashes never lengthens its input and leaves a string without backslashes unchanged |
| Config.StripSlashesUndoesAddSlashes | config/config.php:91 | stripslashes(addslashes(s)) == s for every string |
| Config.HtmlEscape | config/config.php:99-101 | htmlspecialchars with ENT_QUOTES leaves no '<', '>', '"' or '\'' in its output, and changes nothing in text without special characters |
| Config.HtmlDecodeEscape | config/config.php:99-101 | escaping loses nothing: decoding the entities gives back the original text |
| Config.SanitizeInput | config/config.php:86-96 | the stored text contains no HTML-special character |
| Config.SanitizeRoundTrip | config/config.php:86-96 | decoding a sanitised value gives exactly stripslashes(trim(input)): only blanks and backslashes are lost |
| Config.SanitizeDigits | config/config.php:86-96 | a string of digits (an odometer reading as bikes.php:26 posts it) passes sanitizeInput unchanged |
| Config.ValidateInput | config/config.php:106-132 | input is trimmed first; phone accepts exactly 10 to 15 ASCII digits; alpha and alphanumeric accept exactly non-empty strings of those classes; the default case rejects "" and "0"; the number (is_numeric), filter_var and date kinds defer to the given predicate on the trimmed text |
| Config.PasswordViolations | config/config.php:252-272 | the reported rules are exactly the violated ones (length as strlen counts it, in UTF-8 bytes; uppercase, lowercase, digit), in that fixed order; none iff the password is strong |
| Config.LengthRuleCountsBytes | config/config.php:255 | a 7-character password holding a two-byte letter meets the 8-byte minimum |
| Config.Messages | config/config.php:252-272 | one message per violated rule, in the same order |
| Config.RoundHundredths | config/config.php:352 | round($x, 2) in hundredths: within half a hundredth of 100·x, ties away from zero |
| Config.RoundHundredthsOdd | config/config.php:352 | rounding is symmetric: round(-x) == -round(x) |
| Config.CalculateMileage | config/config.php:350-353 | 0 when fuel <= 0; otherwise exactly RoundHundredths(distance / fuel), non-negative for a non-negative distance |
| Config.CeilDiv | config/config.php:224 | ceil(a / b) for b > 0: the least q with a <= b·q |
| Config.RateVerdict | config/config.php:211-228 | locked iff an unexpired entry holds at least MAX_LOGIN_ATTEMPTS (5) failures; the remaining minutes are ceil((900 − elapsed)/60) and lie in 0..15 |
| Config.AfterFailure | config/config.php:239-246 | a failure adds exactly one to the count and keeps the window start; a first failure starts at {1, now} |
| Config.ResetIfExpired | config/config.php:213-219 | only the checked identifier's entry changes, and only when its window has expired: it becomes {0, now} |
| Config.FailureAfterCheck | config/config.php:211-246 | after a check, one failure counts 1 in a fresh window when the old window had expired, and one more in the same window otherwise |
| Config.FailuresCounted | config/config.php:233-247 | n failures recorded from an empty slot give the entry {n, time of the first} |
| Config.FifthFailureLocks | config/config.php:211-247 | five failures within 900 s of the first lock the identifier |
| Config.FlashKind | config/config.php:317 | the stored flash type is one of success/error/warning/info, and a known type is kept |
| Config.CsrfValid | config/config.php:149-154 | validateCSRFToken is true iff a token is stored, the submitted one is not PHP-empty, and the two are equal |
| Config.Session.Clear | config/config.php:177 | session_unset removes every key the model keeps |
| Config.Session.CheckLoginAttempts | config/config.php:211-228 | returns the verdict of the stored entry and resets only an expired entry |
| Config.Session.RecordLoginAttempt | config/config.php:233-247 | success deletes the identifier's entry; failure stores one more failure; other identifiers are untouched |
| Config.Session.CheckSessionTimeout | config/config.php:173-184 | alive iff no last activity is stored or at most `timeout` seconds have passed; a dead session is cleared (no user, no timestamps, no login attempts, no CSRF token, no flash); a live one has last_activity = now and nothing else changes |
| Config.Session.GenerateCsrfToken | config/config.php:137-144 | a token at most 3600 s old is returned unchanged; a missing or stale one is replaced by the freshly minted token stamped now |
| Config.Session.ValidateCsrfToken | config/config.php:149-154 | true iff the stored token equals the non-empty submitted one |
| Config.Session.SetFlashMessage | config/config.php:315-318 | stores the sanitised message and a known type (unknown types become 'info') |
| Config.Session.GetFlashMessage | config/config.php:323-332 | returns the stored message and type ('info' when missing) and removes both; null and no change when nothing is stored |
| Config.FlashShownOnce | config/config.php:315-332 | set, get, get: the first get returns the message, the second returns null |
| Env.IndexOf | config/env.php:22-23 | the first '=' of a line: absent iff the line has none, otherwise no '=' before it |
| Env.Unquote | config/env.php:33-35 | a value wrapped in the same quote character at both ends loses exactly that pair; any other value is kept verbatim |
| Env.ParseLine | config/env.php:16-35 | an accepted line yields a key that is not PHP-empty and contains neither '#' nor '='; a line without '=' is skipped |
| Env.ParseSkipsBlankOrZero | config/env.php:16-19 | a line of blanks, or one whose only text is "0", is skipped |
| Env.ParseSkipsComment | config/env.php:16-19 | a line whose first non-blank character is '#' is skipped, whatever follows |
| Env.ParseSkipsEmptyKey | config/env.php:22-29 | a line whose first non-blank character is '=' has an empty key and is skipped |
| Env.ParseTrimmedAt | config/env.php:22-35 | a line that trims to head=rest, with no '=' in head, yields trim(head) and unquote(trim(rest)) unless trim(head) is PHP-empty or has a '#' |
| Env.ParsePaddedLine | config/env.php:16-35 | blanks around the key, around the '=' and around the value are dropped; the bare key decides: "0" or a key containing '#' is skipped, any other key reads back with the unquoted bare value |
| Env.ParseAssignment | config/env.php:22-35 | a value may itself contain '=': the line splits at the first one and the rest is the value |
| Env.ParseQuotedAssignment | config/env.php:33-35 | `key="inner"` and `key='inner'` give exactly `inner` |
| Env.ApplyLastWins | config/env.php:37-40 | after loading, a key holds the value of the last line defining it; keys no line defines keep their earlier value |
| Env.Coerce | config/env.php:70-85 | case-insensitive true/(true), false/(false), empty/(empty) and null/(null) become true, false, "" and null; every other string is returned unchanged |
| Env.CoerceIgnoresCase | config/env.php:70-85 | two strings equal after strtolower coerce to the same keyword value; a non-keyword comes back as itself |
| Env.CoerceTrueAnyCase | config/env.php:70-73 | "TRUE", "True" and "true" all coerce to true |
| Env.Environment.LoadEnv | config/env.php:7-45 | a missing file returns false and changes nothing; otherwise $_ENV, $_SERVER and the process environment each receive every accepted line, in order |
| Env.Environment.Lookup | config/env.php:51-86 | $_ENV first, then $_SERVER, then getenv, each coerced; the default when all three miss |
| Env.LoadedKeyReadsLastLine | config/env.php:38-67 | after loadEnv, env() returns the coerced value of the last line that defines the key |
| Ledger.ReviseOwned | trips.php:59-60 | an `UPDATE … WHERE id = ? AND user_id = ?` revises only the row with that id and that owner; every other row, and a foreign row, is unchanged |
| Ledger.RemoveOwned | trips.php:72-73 | a `DELETE … WHERE id = ? AND user_id = ?` removes only the user's own row |
| Ledger.RaiseOdometer | fuel.php:53-54 | the owner's bike ends at max(old, reading); no bike's odometer decreases; other bikes and foreign bikes are unchanged |
| Ledger.OverwriteOdometer | trips.php:35-36 | the owner's bike gets exactly the written value; other bikes are unchanged |
| Ledger.OverwriteCanLower | trips.php:35-36 | the trip and bike writers can lower the odometer (5150 to 5100) |
| Ledger.FindPreviousFill | fuel.php:33-35 | the selected log is of the same bike with a smaller reading and the largest such reading; none iff no log qualifies; the query has no owner filter |
| Ledger.FillMileage | fuel.php:37-46 | a mileage exists iff there is a previous fill with positive quantity and a positive distance; it is (reading − previous reading) / previous quantity, rounded to hundredths |
| Ledger.PreviousFillMileage | fuel.php:33-46 | the distance to the previous fill is always positive, so its quantity alone decides whether there is a mileage |
| Ledger.PreviousIsLastOfIncreasing | fuel.php:33-44 | when fills arrive with increasing readings, the previous fill is the last one logged |
| Ledger.FirstFillHasNoMileage | fuel.php:30-37 | a bike's first fill has no previous fill and no mileage |
| Ledger.FuelAddKeepsCover | fuel.php:49-54 | a fuel add keeps every owner's fuel readings at or below the bike's odometer |
| Ledger.TripAddCanBreakCover | trips.php:35-36 | a trip ending below a logged fuel reading breaks that invariant |
| Ledger.DerivedReminder | service.php:35-39 | a reminder exists iff the next-service date is given or the next-service km is non-empty (not blank, not 0); it is a Medium 'Service' reminder titled "Next Service Due - " + type, due at those fields |
| Ledger.FuelStats | fuel.php:140-154 | total litres and total cost are the sums over the listed logs; the average mileage is over the logs with a non-zero mileage, 0 when there are none |
| Ledger.ServiceStats | service.php:127-130 | the total is the sum of the listed costs; an average exists iff there is a record, and average × count == total |
| Ledger.Database.InsertUser | register.php:58-59 | AUTO_INCREMENT: a fresh id, the row added, no existing row overwritten |
| Ledger.Database.InsertBike | bikes.php:30-31 | a fresh id, the row added, no existing row overwritten |
| Ledger.Database.InsertFuelLog | fuel.php:49-50 | a fresh id, the row added, no existing row overwritten |
| Ledger.Database.InsertTrip | trips.php:31-32 | a fresh id, the row added, no existing row overwritten |
| Ledger.Database.InsertService | service.php:31-32 | a fresh id, the row added, no existing row overwritten |
| Ledger.Database.InsertReminder | reminders.php:27-28 | a fresh id, the row added, no existing row overwritten |
| Ledger.Database.UpdateUserRow | profile.php:30-31 | `UPDATE users … WHERE user_id = ?` changes that row if it exists and nothing otherwise |
| Ledger.Database.RaiseBikeOdometer | fuel.php:53-54 | the bikes table becomes RaiseOdometer of the old one |
| Ledger.Database.SetBikeOdometer | trips.php:35-36 | the bikes table becomes OverwriteOdometer of the old one |
| Ledger.Database.UpdateBike | bikes.php:38-59 | the owner's bike gets the sanitised fields and the submitted odometer, with no monotonicity check; other rows are unchanged |
| Ledger.Database.DeleteBike | bikes.php:60-71 | only the owner's bike is removed |
| Ledger.Database.UpdateFuel | fuel.php:61-82 | the owner's log takes the submitted fields; its mileage is kept and no odometer is touched |
| Ledger.Database.DeleteFuel | fuel.php:83-94 | only the owner's log is removed |
| Ledger.Database.UpdateTrip | trips.php:44-67 | accepted iff end > start; a rejected update changes nothing; an accepted one revises only the owner's trip; the odometer is never touched |
| Ledger.Database.DeleteTrip | trips.php:68-79 | only the owner's trip is removed |
| Ledger.Database.UpdateService | service.php:47-69 | the owner's record takes the submitted fields; no reminder and no odometer is touched |
| Ledger.Database.DeleteService | service.php:70-81 | only the owner's record is removed |
| Ledger.Database.UpdateReminder | reminders.php:35-53 | the owner's reminder takes the submitted fields and keeps its completion state |
| Ledger.Database.CompleteReminder | reminders.php:54-65 | the owner's reminder is marked completed with today's date; nothing else changes |
| Ledger.Database.DeleteReminder | reminders.php:66-77 | only the owner's reminder is removed |
| Ledger.AddBike | bikes.php:17-37 | a new bike of the user with every text field sanitised and the submitted odometer |
| Ledger.AddFuel | fuel.php:17-60 | the mileage is that of the previous fill, whoever owns it; the log is inserted even for a bike the user does not own; the bikes table becomes RaiseOdometer of the old one |
| Ledger.AddTrip | trips.php:17-43 | accepted iff end > start; a rejected trip inserts nothing and leaves the odometer; an accepted trip is inserted and the owner's odometer is overwritten with the end reading |
| Ledger.AddService | service.php:17-46 | the record is inserted; a reminder is inserted iff DerivedReminder yields one; the odometer is not touched |
| Ledger.AddReminder | reminders.php:17-34 | a new open reminder with sanitised title and description |
| Ledger.FifteenKmPerLitre | fuel.php:43-44 | 150 km after a 10-litre fill is 15.00 km/l |
| Ledger.TwoFills | fuel.php:17-60 | on a bike at 5000 km, a first fill at 5000 has no mileage and a second at 5150 gets 15.00 km/l and lifts the odometer to 5150 |
| Ledger.LedgerScenario | trips.php:27-28 | after those fills, a trip from 5150 to 5100 is rejected and the odometer stays at 5150 |
| Urgency.DaysUntil | reminders.php:248 | floor((due − now) / 86400): negative exactly when the due moment has passed |
| Urgency.DateStatus | reminders.php:247-261 | overdue iff days < 0, due today iff 0, due soon iff 1..7, upcoming beyond; the texts "Overdue by N days", "Due Today!" and "Due in N days" |
| Urgency.Append | reminders.php:268 | a part is appended after " \| " only when the text so far is not PHP-empty |
| Urgency.Classify | reminders.php:241-277 | completed always wins; the odometer axis applies only when both readings are non-zero; km_left <= 0 forces overdue; 0 < km_left <= 500 gives due-soon unless already overdue; otherwise the date status stands |
| Urgency.StatusTextParts | reminders.php:264-272 | the text joins the date part and the odometer part ("Odometer reached" or "N km left") |
| Urgency.OdometerAxisNeedsBothReadings | reminders.php:264 | a missing or zero due odometer, or a zero current odometer, leaves the badge as if there were no odometer axis |
| Urgency.ReachedOdometerIsOverdue | reminders.php:265-268 | reaching the due reading makes a reminder overdue whatever its date says |
| Urgency.Filter | reminders.php:93-107 | keeps exactly the user's rows (of the chosen bike), with 'pending' keeping open ones, 'completed' completed ones and any other value all; each kept row as often as in the input, in input order |
| Urgency.BeforeTotal | reminders.php:114 | the ORDER BY relates every two reminders one way or the other |
| Urgency.Insert | reminders.php:114 | inserting into an ordered listing keeps it ordered and adds exactly that reminder |
| Urgency.Order | reminders.php:114 | the result is ordered by is_completed ASC, due_date ASC (NULL first), priority DESC, and is a permutation of the input |
| Urgency.ListReminders | reminders.php:93-117 | the listing is exactly the filtered rows, in that order |
| Urgency.OpenBeforeCompleted | reminders.php:114 | every open reminder is listed before every completed one |
| Dashboard.SelectedBike | dashboard.php:14 | the requested bike when given, else the first listed bike, else none |
| Dashboard.SelectsNewest | dashboard.php:9-14 | with no bike requested, the shown bike is the most recently created one |
| Dashboard.CurrentBike | dashboard.php:16-20 | a bike is found iff a truthy id is selected and that bike belongs to the user |
| Dashboard.BaselineReadings | dashboard.php:41-48 | the UNION ALL rows are exactly the bike's trip start readings and fuel readings |
| Dashboard.Min | dashboard.php:42 | MIN is a member of the column and no larger than any member |
| Dashboard.InitialOdometer | dashboard.php:36-63 | the stored baseline when set and positive; otherwise the smallest trip start or fuel reading; otherwise the current odometer |
| Dashboard.DistanceDriven | dashboard.php:67 | distance + baseline == current odometer, unclamped |
| Dashboard.NoHistoryNoDistance | dashboard.php:50-67 | with no positive stored baseline and no history, the distance is 0 |
| Dashboard.DistanceNonNegative | dashboard.php:36-67 | no reading (and no stored baseline) above the current odometer means a non-negative distance |
| Dashboard.DistanceCanBeNegative | dashboard.php:67 | after a trip writes back a lower end reading the distance is negative |
| Dashboard.CostPerKm | dashboard.php:220 | (fuel + service) / distance when the distance is positive, NULL sums counted as 0; 0 otherwise |
| Dashboard.DayLabel | dashboard.php:301-315 | no label without a due date; otherwise "Overdue" when the due moment has passed, "Today" on the due day, and "N days left" after that |
| Dashboard.DayLabelMatchesDateStatus | dashboard.php:301-315 | the dashboard label and the reminders-page badge agree on overdue, today and the 7-day window |
| Dashboard.LabelOverdueIffPast | dashboard.php:302-305 | a label is overdue iff the due moment has passed |
| Reports.ScopedFuel | reports.php:15-21 | exactly the fuel logs of the user (and of the chosen bike, when one is chosen), each as often as in the table |
| Reports.ScopedServices | reports.php:15-21 | exactly the service records of the user (and of the chosen bike), each as often as in the table |
| Reports.ForeignRowsExcluded | reports.php:15-21 | no row of another user reaches any aggregate |
| Reports.NonNullMileage | reports.php:54 | the rows AVG(mileage) counts: none iff no row has a mileage |
| Reports.Mean | reports.php:54 | SQL AVG: NULL over no rows, otherwise mean × count == total |
| Reports.FuelAggregates | reports.php:53-56 | SUM is NULL over no rows and the sum otherwise; AVG(mileage) is NULL iff no row has one; COUNT is the row count |
| Reports.ServiceAggregates | reports.php:58-61 | SUM(service_cost) is NULL over no rows; COUNT is the row count |
| Reports.ZeroMileageCountsInReport | reports.php:54 | AVG(mileage) counts a stored 0 that the fuel page's average skips |
| Reports.SingleBikeDistance | reports.php:27-36 | current − initial of the user's bike, each missing value as 0; 0 when the bike is not the user's |
| Reports.SumDistances | reports.php:39-42 | the SUM over the user's bikes skips those without a baseline, and is NULL iff none of the user's bikes has one |
| Reports.AllBikesDistance | reports.php:39-42 | the SUM, or 0 when no bike of the user has a baseline |
| Reports.AllBikesDistanceSkipsNull | reports.php:39-42 | for any mix of bikes, the all-bikes distance is the sum of current − initial over the user's bikes with a baseline; other bikes and other users' bikes contribute 0 |
| Reports.AllBikesSumsSingleBikes | reports.php:34-42 | with every bike the user's and every baseline recorded, the all-bikes distance is the sum of the single-bike distances |
| Reports.SingleAndAllDisagreeWithoutBaseline | reports.php:34-42 | without a baseline, one bike reports its whole odometer while all bikes report 0 |
| Reports.ListedTotalDistance | bikes.php:87 | the listing's total_distance is the current odometer, which exceeds current − initial by the baseline |
| Reports.DashboardAndReportDisagree | reports.php:36 | the report and the dashboard's fallback baseline give different distances for one bike |
| Reports.Expenditure | reports.php:302 | fuel + service, each NULL sum as 0 |
| Reports.AverageServiceCost | reports.php:291-294 | shown iff there is a service; average × count == total |
| Reports.CostPerKm | reports.php:304-307 | shown iff the distance is positive; cost × distance == expenditure |
| Reports.AverageServiceCostIsMean | reports.php:291-294 | the shown average is the mean cost of the scoped records |
| Auth.LoginError | login.php:11-59 | only a successful login shows no error; a lock-out names the remaining minutes |
| Auth.Authenticate | login.php:23-55 | blocked iff the limiter reports locked, with no lookup, nothing recorded and the session untouched; a login needs a user matching by username or email whose hash verifies, fills the session and clears the failures; otherwise exactly one failure is recorded and the user, timestamps and flash are unchanged |
| Auth.Login | login.php:11-59 | a CSRF failure and empty credentials touch neither the limiter nor the session; otherwise, for the sanitised username: blocked iff the limiter says locked (nothing changes); a login names a matching user whose hash verifies, fills the session, clears that username's failures and sets the welcome flash; a bad login records exactly one more failure for it and nothing else |
| Auth.RegistrationError | register.php:25-40 | the first failing check in the order required fields, e-mail, alphanumeric username, strlen(username) >= 3, passwords match, strength, each with its own message; strength failures joined with '<br>'; none iff every check passes |
| Auth.AcceptedRegistrationIsWellFormed | register.php:25-40 | an accepted registration has an ASCII alphanumeric username, so its 3 or more bytes are 3 or more characters, and a strong password |
| Auth.CreateAccount | register.php:41-63 | registered iff the form is acceptable and neither the username nor the e-mail is taken; a form error is returned as it is; a taken username gives "Username already exists" even when the e-mail is taken too, and only a free username with a taken e-mail gives "Email already registered"; the row stores the hash, not the password; a refusal writes nothing |
| Auth.Register | register.php:12-63 | a CSRF failure refuses the form before any validation; past it, on the sanitised form, registered iff every check passes and neither the username nor the e-mail is taken, with the same errors in the same order as CreateAccount; a registration stores the sanitised fields and the hash of the raw password |
| Auth.ProfileError | profile.php:17-21 | name and e-mail are required, then the e-mail must be valid |
| Auth.SaveProfile | profile.php:23-31 | refused, writing nothing, iff another user already has the e-mail (keeping one's own is allowed); otherwise the row takes the new fields |
| Auth.UpdateProfile | profile.php:12-42 | accepted iff the form is valid and the e-mail is not another user's; then the users row and the session's name and e-mail both change and the success flash is set; a form error is returned as ProfileError gives it, an e-mail of another user as "Email already in use by another account", and an error changes neither the row, the session user nor the flash |
| Auth.PasswordChangeError | profile.php:48-54 | fields present, then strlen(new) >= minimum (in bytes), then new == confirm, each with its own message; none iff all hold |
| Auth.ReplacePassword | profile.php:58-66 | the hash is replaced by hash(new) iff the current password verifies against the stored hash; otherwise the table is unchanged |
| Auth.ChangePassword | profile.php:43-76 | succeeds iff the form passes and the current password verifies; only then is the hash replaced and the flash set; a form error is returned as PasswordChangeError gives it, otherwise "Current password is incorrect"; on an error the row and the flash are unchanged |
| Format.ToFixed | assets/js/script.js:56 | toFixed prints only digits, '-' and '.' |
| Format.ToFixedReadsBack | assets/js/script.js:56 | toFixed has exactly d digits after the point, a '-' exactly for negatives, and its digits read back as the number |
| Format.FormatNumberOnlyAddsCommas | assets/js/script.js:55-57 | removing the commas from formatNumber gives the toFixed string |
| Format.GroupOnlyAddsCommas | assets/js/script.js:56 | grouping in threes from the right only inserts commas |
| Format.GroupFromIsGroup | assets/js/script.js:56 | the regex's comma positions inside a digit run are those of grouping in threes from the right |
| Format.GroupLength | assets/js/script.js:56 | a run of more than three digits always gets at least one comma |
| Format.FormatNumberShape | assets/js/script.js:55-57 | formatNumber is the sign, the grouped integer digits, and for decimals > 0 the point and the grouped fraction digits |
| Format.FormatNumberIntended | assets/js/script.js:55-57 | only the integer part is grouped: the commas removed give toFixed, and the fraction is exactly toFixed's |
| Format.UpToThreeDecimalsAgree | assets/js/script.js:56 | with at most three decimals the regex groups only the integer part |
| Format.FractionGetsCommas | assets/js/script.js:56 | with four or more decimals the fraction digits are grouped too, so the output differs from the intended one |
| Format.FormatCurrency | assets/js/script.js:60-62 | the rupee prefix as the file stores it, followed by formatNumber(amount, 2) |
| Format.CalculateMileageJs | assets/js/script.js:72-75 | 0 iff fuel <= 0; otherwise the two-decimal text |
| Format.MileageAgreesWithServer | assets/js/script.js:72-75 | the browser's mileage text is the server's calculateMileage printed with two decimals |
| Format.GetIcon | assets/js/script.js:178-186 | success, error and warning map to their icons; every other type gets 'info-circle' |

## Left out

- JOIN fan-out (bikes.php:84-98) is not modelled. Neither is the unseen schema: the generated trip `distance` column and cascading deletes. Rows are plain maps.
- PDOException paths are not modelled: every statement succeeds.
- The flash messages and redirects after each handler are left out, except the login and profile confirmations.
- `logActivity` is left out because it is file I/O.
- `isLoggedIn`, `requireLogin` and `getUserId` are not modelled; every handler takes the user id as a parameter.
- `session_regenerate_id` and `session_destroy` are left out because they are session I/O. The model keeps only the `$_SESSION` keys the core reads.
- `md5` keying of the login-attempt entries is not modelled: entries are keyed by the identifier itself, so md5 collisions are not modelled.
- `password_hash`, `password_verify`, `filter_var`, `random_bytes`, `DateTime::createFromFormat`, `strtotime` and `date` are opaque. They are parameters, or dates arrive as epoch seconds. The reminder description's formatted date is a parameter.
- Auth.Authenticate: `SELECT … WHERE username = ? OR email = ?` returns the first matching row in storage order. The model lets any matching user be the one verified.
- Php.StrLen: strings are sequences of Unicode characters, and request text is taken to be well-formed UTF-8. Byte sequences that are not valid UTF-8 are not modelled.
- PHP's loose comparisons between numeric strings and numbers are not modelled. Form numbers arrive already as numbers, and blank optional numbers as None.
- Ledger.AddBike: the insert does not name `initial_odometer`, and the schema is not part of this model. The new bike's baseline is taken to be NULL.
- `AVG(price_per_liter)` and the trip statistics of reports.php (COUNT, SUM and AVG of `distance`) are not modelled. They read a generated column the model does not have.
- The monthly charts of dashboard.php and reports.php are left out (DATE_FORMAT grouping, Chart.js), as are `number_format` and `formatDate`.
- Format.ToFixed: JavaScript numbers are binary floating point. The model takes the decimal value toFixed would print as an integer count of 10^-d units, so rounding artefacts and "-0.00" are not modelled.
- Format.GetIcon: a type naming an inherited object property (such as "constructor") would select that property. Such keys are not modelled.
- Config.ValidateInput: the number case (`is_numeric`), the date case (`DateTime::createFromFormat`) and the filter_var cases are decided by a given predicate, not modelled.
- Urgency.PriorityRank: the schema is not part of this model. `priority DESC` is taken to sort an ENUM('Low','Medium','High') column by its declaration order (High, Medium, Low). A VARCHAR column would sort alphabetically instead.
- The `.env` file is read into lines before loadEnv runs. `FILE_SKIP_EMPTY_LINES` and the file system are not modelled.
- Concurrency is not modelled: each request is one atomic step.

## Findings

| source | as written | input that shows it | evidently intended | confidence | as-written member | corrected member |
|---|---|---|---|---|---|---|
| assets/js/script.js:56 | the grouping regex `\B(?=(\d{3})+(?!\d))` also matches inside the fractional digits when there are four or more decimals | formatNumber(1234.5678, 4) gives "1,234.5,678" | group only the integer part: "1,234.5678" | not executed | Format.FractionGetsCommas | Format.FormatNumberIntended |
