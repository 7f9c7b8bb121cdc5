# A Dafny model of the LMS quiz, account and catalog logic

This project models the logic of a learning-management system: a React front end over a Django REST back end. Rendering and network plumbing are left aside. What remains is the sequential logic, stated over integers, strings and sequences:

- **Quiz attempt** (`QuizRunner`, `QuizReview`, `QuizResult`):
  - the attempt is a class with the question index, the answer map, the countdown and the confirm-modal flag;
  - every click and timer tick is a method;
  - the score is computed by a loop, proved equal to a recursive count;
  - the review screen classifies options;
  - the result screen applies the 60 % pass rule in integers.
- **Accounts and OTP** (`Accounts`, `PasswordPolicy`, `UserModels`, `Uploads`):
  - the views become a service class holding the pending registrations and the users, keyed by e-mail;
  - the clock and the random codes are parameters;
  - the password policy returns its ordered error messages;
  - the user manager applies its flag defaults and checks;
  - the upload path is built from a given identifier.
- **Authentication pages** (`AuthClient`, `LoginPage`, `RegisterPage`, `ResetPages`):
  - the login, registration, OTP-verification and reset pages are classes;
  - each countdown tick is an explicit call;
  - each request outcome is an input.
- **Admin editors** (`TimezoneAdmin`, `SubjectTagAdmin`):
  - the offset formatter, the name composition and its parse on edit;
  - the duplicate check;
  - the search filter;
  - the submit, edit, cancel and delete steps.
- **Profile lists** (`InstructorProfile`, `LearnerProfile`):
  - adding and removing teaching languages;
  - toggling interests;
  - the selected/available partition of subject tags.
- **Routing and catalog** (`Navbar`, `Routing`, `CourseDetail`, `CategoryCourses`, `CoursesPage`):
  - the course search and the role-dependent links and paths;
  - the route guard and the dashboard switch;
  - the comment list and the module accordion;
  - the category filter;
  - the carousel counters, with JavaScript's `%` (NaN on a zero divisor) and `slice` clamping written out.

`Wrappers`, `Text`, `Seqs`, `Clock` and `Catalog` hold shared definitions:

- `Option` and `Result`;
- ASCII lower-casing, JavaScript-style trimming and Python's `strip()`;
- substring search and splitting;
- a generic order-preserving filter and its lemmas;
- an abstract password hash;
- the catalog records.

### Where the code departs from its intended behaviour

The model follows the code in each of these cases.

- **Result and review screens without navigation state.** These screens are meant to fall back to a score of 0 out of 0. In the code the back link reads `location.state.courseId` during render, so the screen fails. `QuizReview.RenderReview` and `QuizResult.RenderResult` return an error in that case.
- **Next and Previous.** Next and Previous are meant to be no-ops at the ends. In the code these buttons are not rendered there. The model treats the events as no-ops at the ends.

### Behaviour of the code that the model keeps

- **Pass rule with zero questions.** A total of 0 with a positive score yields an infinite percentage. That result counts as passed. A score of 0 over 0 yields NaN and does not pass.
- **Admin landing pages disagree.** After login or registration an admin lands on /courses. The navigation bar and the dashboard switch send admins to /admin instead.
- **The Dashboard tab ignores the role.** The bar's Dashboard tab always links to /student. `getDashboardPath` is computed but no link uses it.
- **The route guard is unused.** No route in `App.jsx` uses the guard. The auth context provides no `loading` flag, so the guard's spinner branch cannot be reached.
- **Every new comment is by "guest".** The stored session holds only a role and an e-mail, so the comment author is always "guest".
- **The subject-tag editor sends the name untrimmed.** The name goes out as typed, although the duplicate check trims it.
- **A failed mail leaves the registration stored.** The pending registration is saved before the OTP mail is sent. A mail failure answers 500 and leaves the record in place.
- **An empty trending list cannot render.** The trending carousel reads `undefined` entries and fails. The model returns no row.
- **Newly added row with three courses or fewer.** The counter's modulus `len - 3` is 0 or negative. The counter becomes NaN, or the row is short.
- **Two password rules.**
  - The registration page has its own regular expression. It also counts '_' and any non-word character as special.
  - Its `.` does not match line breaks.
  - The back end has a separate rule, which the reset page mirrors exactly.
  - The lemmas in `PasswordPolicy` state how the two rules differ.
- **The back end strips its text fields.** The password, its confirmation and the OTP are serializer text fields with their defaults. Each is stripped of surrounding whitespace and refused when nothing is left. The password rules, the confirmation match, the six-character limit, the stored hash and the login check all see the stripped value, and a blank login password is a 400 rather than a 401.

## Model

| member | source | states |
|---|---|---|
| QuizRunner.ScoreUpTo | frontend/src/features/quiz/Quiz.jsx:22-25 | the count over the first n questions never exceeds n |
| QuizRunner.Score | frontend/src/features/quiz/Quiz.jsx:22-25 | an attempt never scores more points than it has questions |
| QuizRunner.ScoreUpToCounts | frontend/src/features/quiz/Quiz.jsx:22-25 | the count over the first n questions is the size of the set of correctly answered indices below n |
| QuizRunner.ScoreCountsCorrect | frontend/src/features/quiz/Quiz.jsx:22-25 | the score is the number of questions whose recorded choice is exactly the answer |
| QuizRunner.ScoreAtMostAnswered | frontend/src/features/quiz/Quiz.jsx:22-25 | unanswered questions add nothing: the score is at most the number of recorded answers |
| QuizRunner.EmptyAnswersScoreZero | frontend/src/features/quiz/Quiz.jsx:17 | an attempt submitted with no answer (the initial `{}`) scores 0 |
| QuizRunner.ScoreUpToFull | frontend/src/features/quiz/Quiz.jsx:22-25 | the first n questions score n exactly when each of them is answered correctly |
| QuizRunner.FullMarksIffAllCorrect | frontend/src/features/quiz/Quiz.jsx:22-25 | full marks exactly when every question is answered correctly, both directions |
| QuizRunner.ScoreUpToAfterSelect | frontend/src/features/quiz/Quiz.jsx:61-63 | overwriting one question's choice changes a prefix's count only through that question |
| QuizRunner.SelectChangesOnlyThatQuestion | frontend/src/features/quiz/Quiz.jsx:61-63 | re-selecting on question q leaves every other question's correctness alone and moves the score only by q's own point |
| QuizRunner.ComputeScore | frontend/src/features/quiz/Quiz.jsx:22-25 | the `forEach` counting loop returns exactly Score |
| QuizRunner.Attempt.constructor | frontend/src/features/quiz/Quiz.jsx:16-19 | the attempt starts on question 0 with no answers, 600 seconds and the modal closed |
| QuizRunner.Attempt.SelectAnswer | frontend/src/features/quiz/Quiz.jsx:61-63 | only the shown question's entry is overwritten; question index, clock and modal unchanged |
| QuizRunner.Attempt.Next | frontend/src/features/quiz/Quiz.jsx:145-151 | one question forward only while Next is shown (not on the last question); nothing else changes |
| QuizRunner.Attempt.Previous | frontend/src/features/quiz/Quiz.jsx:134-140 | one question back only while Previous is shown (not on the first); nothing else changes |
| QuizRunner.Attempt.RequestSubmit | frontend/src/features/quiz/Quiz.jsx:152-158 | Submit only opens the confirmation modal, and only on the last question |
| QuizRunner.Attempt.CancelSubmit | frontend/src/features/quiz/Quiz.jsx:187-192 | Cancel closes the modal and keeps answers, question index and clock |
| QuizRunner.Attempt.PreviousOffered | frontend/src/features/quiz/Quiz.jsx:134-139 | Previous is shown except on the first question and leads to an existing question |
| QuizRunner.Attempt.NextOffered | frontend/src/features/quiz/Quiz.jsx:145-150 | in a valid attempt Next is shown except on the last question, and leads to an existing question |
| QuizRunner.Attempt.SubmitOffered | frontend/src/features/quiz/Quiz.jsx:145-158 | in a valid attempt Submit replaces Next exactly on the last question |
| QuizRunner.Attempt.ConfirmSubmit | frontend/src/features/quiz/Quiz.jsx:21-35 | "Yes, Submit" closes the modal and hands score, total, answers, questions and course id to the review route |
| QuizRunner.Attempt.Tick | frontend/src/features/quiz/Quiz.jsx:37-59 | the clock drops by one second; at 1 or less it stops at 0 and hands score, total and course id (no answers) to the result route |
| QuizRunner.ExampleScores | frontend/src/features/quiz/Quiz.jsx:22-25 | three sample answer maps over three questions score 3, 2 and 1 |
| QuizRunner.ExampleSession | frontend/src/features/quiz/Quiz.jsx:37-63 | a client session: the last choice per question wins and a timed-out attempt reaches the result route with its score |
| QuizReview.ClassifyOption | frontend/src/features/quiz/QuizReview.jsx:63-75 | an option is green exactly when it is the answer, and red exactly when the user chose it and it is not the answer |
| QuizReview.AnswerText | frontend/src/features/quiz/QuizReview.jsx:96 | the hint names the option at the answer index when there is one, and otherwise shows nothing; it is never text outside the options |
| QuizReview.Card | frontend/src/features/quiz/QuizReview.jsx:36-99 | a card is marked correct exactly when the chosen option is the answer, has one colour per option, shows the hint exactly when incorrect, and the hint is the answer's option |
| QuizReview.OptionClasses | frontend/src/features/quiz/QuizReview.jsx:63-75 | one colour per option of the question |
| QuizReview.Cards | frontend/src/features/quiz/QuizReview.jsx:36-38 | one card per carried question |
| QuizReview.CountCorrectPrefix | frontend/src/features/quiz/QuizReview.jsx:37 | over any prefix, the cards shown correct number the questions the exam counted |
| QuizReview.ReviewAgreesWithScore | frontend/src/features/quiz/QuizReview.jsx:36-46 | the number of green cards is the score the exam computed |
| QuizReview.ReviewOfConfirmedAttempt | frontend/src/features/quiz/QuizReview.jsx:9-10 | a payload from a confirmed attempt renders, with its header score equal to the green cards and its total equal to the card count |
| QuizReview.RenderReview | frontend/src/features/quiz/QuizReview.jsx:9-108 | the screen renders exactly for a review payload; then it shows the carried score and total, one card per carried question marked correct exactly when the exam counted it, and the course's back link |
| QuizReview.CountWrongPrefix | frontend/src/features/quiz/QuizReview.jsx:63-75 | over a prefix of options, at most the one wrong chosen option is red |
| QuizReview.AtMostOneWrongChoice | frontend/src/features/quiz/QuizReview.jsx:63-75 | per card exactly one option is red when an existing wrong option was chosen, none otherwise, and none on a correct card |
| QuizReview.CardColours | frontend/src/features/quiz/QuizReview.jsx:37-99 | the right option is green whether chosen or not, an option is red exactly when it was chosen and is wrong, and the hint shows exactly on a wrong card |
| QuizResult.Passed | frontend/src/features/quiz/QuizResult.jsx:12-13 | for a non-empty quiz, a pass is a score of at least three fifths of the total; with no question, a pass is any positive score |
| QuizResult.Message | frontend/src/features/quiz/QuizResult.jsx:67 | the congratulation shows exactly on a pass and the encouragement exactly on a fail |
| QuizResult.PassedIffPassMark | frontend/src/features/quiz/QuizResult.jsx:12-13 | for a non-empty quiz, passing (percentage at least 60) is the same as reaching 60 % of the total rounded up, both directions |
| QuizResult.EmptyQuizPassRule | frontend/src/features/quiz/QuizResult.jsx:12-13 | with no question the quiz passes exactly for a positive score (Infinity) and fails for 0 (NaN), so one handed over by the exam never passes |
| QuizResult.PassedMonotone | frontend/src/features/quiz/QuizResult.jsx:12-13 | a better score on the same quiz never turns a pass into a fail |
| QuizResult.PassExamples | frontend/src/features/quiz/QuizResult.jsx:12-13 | 3/5 and 6/10 pass; 2/4, 5/9 and 0/0 fail |
| QuizResult.Stars | frontend/src/features/quiz/QuizResult.jsx:72-80 | one star per question |
| QuizResult.CountFilledPrefix | frontend/src/features/quiz/QuizResult.jsx:76-78 | among the first n stars, min(score, n) are filled |
| QuizResult.FilledStars | frontend/src/features/quiz/QuizResult.jsx:72-80 | exactly `total` stars, min(score, total) filled, and all filled stars come first |
| QuizResult.ResultOfTimedOutAttempt | frontend/src/features/quiz/QuizResult.jsx:9-80 | a timed-out attempt's payload renders; it passes exactly when non-empty with at least 60 %; the badge follows the pass; the filled stars equal the score |
| QuizResult.RenderResult | frontend/src/features/quiz/QuizResult.jsx:9-84 | the screen renders exactly when navigation state is present; then it shows the carried score and total, the pass rule's verdict with its badge and message, one star per question and the course's back link |
| PasswordPolicy.BackendCheck | backend/App_Authentication/serializers.py:23-35 | no error exactly when the password is acceptable (8+ characters, A-Z, a-z, 0-9, a special character); otherwise the rule reported is the first failing one in the validator's order |
| PasswordPolicy.ClientValidate | frontend/src/features/auth/ResetPassword.jsx:27-33 | the reset page's check returns no message exactly when the password is acceptable |
| PasswordPolicy.ClientMirrorsBackend | frontend/src/features/auth/ResetPassword.jsx:27-33 | the reset page accepts exactly what the back end accepts, and on a rejection names the same rule (in its own words) |
| PasswordPolicy.NoSpecialAmong | backend/App_Authentication/serializers.py:33-34 | a password of letters, digits, '_' and '-' only has no character of the special class |
| PasswordPolicy.SpecialIsNotAlnum | backend/App_Authentication/serializers.py:33 | every special character is neither a letter, a digit, '_' nor '-' |
| PasswordPolicy.DashesAreNotSpecial | backend/App_Authentication/serializers.py:25-34 | a password with upper, lower and digit whose only other characters are '_' or '-' fails exactly the special-character rule |
| PasswordPolicy.RegisterStrength | frontend/src/features/auth/Register.jsx:67 | a password the page's expression lets through is refused by the back end only for lacking one of its special characters |
| PasswordPolicy.BackendAcceptedPassesRegister | frontend/src/features/auth/Register.jsx:67-71 | every password the back end accepts passes the registration page's expression, if it has no line terminator |
| PasswordPolicy.DashesPassRegisterOnly | frontend/src/features/auth/Register.jsx:67-71 | a password whose only non-alphanumeric characters are '_' or '-' passes the page (`[\W_]`) but is refused by the back end |
| PasswordPolicy.LineBreakPassesBackendOnly | frontend/src/features/auth/Register.jsx:67 | an acceptable password holding a line terminator is refused by the page (`.` does not match it) |
| PasswordPolicy.ValidateRegistration | backend/App_Authentication/serializers.py:9-40 | the request is valid exactly when the e-mail is free, the stripped password acceptable, the role a known choice and the two stripped passwords equal; a valid request is passed on with both passwords stripped, and an invalid one carries at least one error |
| PasswordPolicy.EmailErrors | backend/App_Authentication/serializers.py:9-21 | the e-mail field reports an error exactly when the address is in use: "user with this email address already exists." (the unique column's validator) for the same spelling, "A user with that email already exists." (`validate_email`) for a spelling that differs only in case; never the mismatch error |
| Accounts.EmailTaken | backend/App_Authentication/serializers.py:19 | the case-insensitive lookup finds an address stored as given and one stored in lower case |
| Accounts.EmailUseOf | backend/App_Authentication/serializers.py:18-21 | the lookups find nothing exactly when no stored address equals the given one ignoring case, and the same spelling exactly when it is stored as given |
| Accounts.DuplicateEmailMessage | backend/App_Authentication/serializers.py:9-21 | registering an address in use is refused, and the first error is the unique column's message for the same spelling, `validate_email`'s for a case variant |
| PasswordPolicy.PasswordErrors | backend/App_Authentication/serializers.py:10-35 | the password field reports an error exactly when its stripped value breaks the policy (a blank value included), and never the mismatch error |
| PasswordPolicy.ConfirmErrors | backend/App_Authentication/serializers.py:11 | the confirmation field reports an error exactly when it is blank after stripping, and never the mismatch error |
| PasswordPolicy.TypeErrors | backend/App_Authentication/serializers.py:12 | the user type field reports an error exactly when the type is not one of the three choices, and never the mismatch error |
| PasswordPolicy.MismatchReportedLast | backend/App_Authentication/serializers.py:37-40 | when the stripped passwords differ, the mismatch is reported, alone, exactly when every field passed: e-mail free, password acceptable, confirmation not blank, role known |
| PasswordPolicy.CharField | backend/App_Authentication/serializers.py:10-11 | a serializer text field with its defaults: refused with "This field may not be blank." exactly when nothing is left after Python's `strip()`, otherwise passed on stripped |
| PasswordPolicy.CharFieldIgnoresPadding | backend/App_Authentication/serializers.py:51 | whitespace around a value never reaches the field's rules: the padded value reads as the value itself |
| PasswordPolicy.ValidateOtpField | backend/App_Authentication/serializers.py:44 | the code field accepts exactly the values that are not blank and have at most 6 characters once stripped, and passes on the stripped code; a blank one gets the blank message |
| PasswordPolicy.PaddedOtpAccepted | backend/App_Authentication/serializers.py:44 | a code of one to six ASCII letters or digits (the generator's six-character codes among them) with whitespace around it is accepted as the bare code |
| Accounts.CooldownBlocks | backend/App_Authentication/views.py:167 | a resend is refused exactly until 60 seconds after the last code was created |
| Accounts.CheckOtp | backend/App_Authentication/views.py:112-119 | a code is accepted exactly when it equals the stored one and either no send time is recorded or at most 600 seconds have passed; an expired verdict implies the code matched |
| Accounts.LifetimeBoundary | backend/App_Authentication/views.py:116-119 | a matching code is still accepted at exactly 600 seconds and expired one second later |
| Accounts.MismatchBeforeExpiry | backend/App_Authentication/views.py:112-113 | a wrong code is reported as "Invalid OTP" however old it is: the mismatch check comes before expiry |
| Accounts.AcceptedEarlier | backend/App_Authentication/views.py:112-119 | a code accepted at some moment is accepted at every earlier moment too |
| Accounts.ClearedOtpMatchesNothing | backend/App_Authentication/views.py:295-296 | once the reset clears the code and its time, no code matches |
| Accounts.DefaultFullName | backend/App_Authentication/views.py:134 | the default profile name is a prefix of the e-mail without '@', followed in the address by '@' when shorter |
| Accounts.DefaultFullNameOfAddress | backend/App_Authentication/views.py:134 | for local@domain the default name is the local part, whatever the domain holds |
| Accounts.AuthService.constructor | backend/App_Authentication/views.py:57-60 | no pending registration and no user at start |
| Accounts.AuthService.Register | backend/App_Authentication/views.py:60-94 | an invalid request answers 400 with the serializer's errors and changes nothing; a valid one stores (or overwrites) the pending row with the hash of the stripped password, role, code and time, then answers 200 or 500 on a mail failure; users are never touched |
| Accounts.AuthService.VerifyOtp | backend/App_Authentication/views.py:99-148 | a code that is blank or over-long once stripped is a 400 with the field's message; no pending row is a 404; then the stripped code is checked: wrong code, expired code and an existing user are 400, 400 and 500; 201 exactly when all checks pass, and then the user is created with the pending hash, role and default name and the pending row removed; otherwise nothing changes |
| Accounts.AuthService.ResendOtp | backend/App_Authentication/views.py:153-182 | no pending row is a 404; within 60 seconds of the last send a 429 with no change; otherwise the code and time are replaced and the answer is 200 or 500 on a mail failure |
| Accounts.AuthService.Login | backend/App_Authentication/views.py:187-214 | a blank password is a 400 with the field's blank message; otherwise 200 with the stored role (student when none) exactly when the stripped password matches the user's hash, and 401 when it does not |
| Accounts.AuthService.ForgotPassword | backend/App_Authentication/views.py:219-241 | an unknown e-mail is a 404 with no change; otherwise a new code and time are stored on the user and the answer is 200 or 500 on a mail failure |
| Accounts.AuthService.VerifyResetOtp | backend/App_Authentication/views.py:246-267 | unknown user 404, then the shared checks give 400 "Invalid OTP", 400 "OTP has expired" or 200; nothing changes |
| Accounts.AuthService.ResetPassword | backend/App_Authentication/views.py:272-299 | unknown user 404, wrong or expired code 400 with no change; otherwise the new password is hashed in and the code and time cleared, after which no code is accepted |
| Accounts.AuthService.ResendForgotOtp | backend/App_Authentication/views.py:304-331 | unknown user 404; the 60-second cooldown applies only when a send time is stored; otherwise a new code and time and 200 or 500 |
| Accounts.SignUpAccepted | backend/App_Authentication/views.py:60-149 | for a password that conforms once stripped, a listed user type and a generated code: registration on an empty store validates, the code field accepts the code as given, the code still matches 600 seconds later, and the stripped password is not empty |
| Accounts.SignUp | backend/App_Authentication/views.py:60-149 | registering with a password that conforms to the policy once stripped and verifying the generated code (six ASCII letters or digits) 600 seconds later leaves a user with the hash of the stripped password and the chosen type, and no pending row |
| Accounts.SignUpThenLogin | backend/App_Authentication/views.py:60-214 | registering with a password that conforms to the policy once stripped, verifying a generated code (six ASCII letters or digits) 600 seconds later and logging in with the same password yields a 200 with the chosen role; verifying again finds no pending row (404) |
| ResetPages.VerifyResetOtp.constructor | frontend/src/features/auth/VerifyResetOtp.jsx:10-16 | empty code and no error; both clocks start full (60-second cooldown, 600-second code) |
| ResetPages.VerifyResetOtp.Mount | frontend/src/features/auth/VerifyResetOtp.jsx:19-25 | an e-mail in the navigation state is taken; without one the page goes back to /forgot-password; code, error, clocks and notice unchanged |
| ResetPages.VerifyResetOtp.EnterCode | frontend/src/features/auth/VerifyResetOtp.jsx:116-119 | the code input stores what is typed; nothing else changes |
| ResetPages.VerifyResetOtp.TickCooldown | frontend/src/features/auth/VerifyResetOtp.jsx:28-36 | the cooldown counts down by one while positive and stays at 0; nothing else changes |
| ResetPages.VerifyResetOtp.TickExpiry | frontend/src/features/auth/VerifyResetOtp.jsx:39-45 | the code clock counts down by one while positive and stays at 0; nothing else changes |
| ResetPages.VerifyResetOtp.VerifyEnabled | frontend/src/features/auth/VerifyResetOtp.jsx:136 | in a valid state the Verify button is enabled exactly while time is left |
| ResetPages.VerifyResetOtp.ResendEnabled | frontend/src/features/auth/VerifyResetOtp.jsx:144 | in a valid state the Resend button is enabled exactly when the cooldown is at 0 |
| ResetPages.VerifyResetOtp.Submit | frontend/src/features/auth/VerifyResetOtp.jsx:53-75 | a request is sent exactly when time is left and a code is entered; an empty code shows "Please enter the OTP."; success moves to /reset-password carrying the e-mail and the code; a failure shows the server error, "Invalid OTP." or "Network error."; e-mail, code, clocks and notice unchanged |
| ResetPages.VerifyResetOtp.Resend | frontend/src/features/auth/VerifyResetOtp.jsx:77-93 | a resend is sent exactly when the cooldown is over; success restarts both clocks and shows the notice; a failure shows the server error or "Failed to resend OTP." and leaves the notice as it was |
| ResetPages.VerifyResetOtp.HideResendNotice | frontend/src/features/auth/VerifyResetOtp.jsx:87 | the timer set by a successful resend hides the notice and changes nothing else |
| ResetPages.ResetFormError | frontend/src/features/auth/ResetPassword.jsx:36-51 | the form passes exactly when both fields are filled, equal and acceptable to the policy; for equal filled fields the message is the policy check's |
| ResetPages.ResetPassword.constructor | frontend/src/features/auth/ResetPassword.jsx:10-16 | empty fields, no error, not yet successful |
| ResetPages.ResetPassword.Mount | frontend/src/features/auth/ResetPassword.jsx:18-25 | both the e-mail and the code must come with the navigation, otherwise the page goes back to /forgot-password |
| ResetPages.ResetPassword.Fill | frontend/src/features/auth/ResetPassword.jsx:98-110 | the two inputs store what is typed; nothing else changes |
| ResetPages.ResetPassword.LeaveAfterReset | frontend/src/features/auth/ResetPassword.jsx:59-61 | after a successful reset the timer sends the page to /login and changes nothing else |
| ResetPages.ResetPassword.Submit | frontend/src/features/auth/ResetPassword.jsx:36-84 | submitted only while the form shows, before success; a failing check shows its message and sends nothing; otherwise e-mail, code and new password are sent; success is flagged; a failure shows the server error, "Failed to reset password." or "Network error." |
| ResetPages.SentPasswordsPassBackend | frontend/src/features/auth/ResetPassword.jsx:27-51 | every password the reset page sends satisfies the back end's policy |
| ResetPages.HandOver | frontend/src/features/auth/VerifyResetOtp.jsx:63-65 | for any e-mail, non-empty code and policy-conforming new password, the reset page sends exactly the e-mail and code the verify page accepted, with that password |
| UserModels.IsUserType | backend/App_Authentication/models.py:50-54 | the stored user types are exactly admin, teacher and student |
| UserModels.SplitAddress | backend/App_Authentication/models.py:14 | `rsplit('@', 1)`: None exactly when there is no '@'; otherwise the address is the front, '@' and a back that holds no '@' |
| UserModels.SplitAddressOf | backend/App_Authentication/models.py:14 | the split of local@domain, for a domain without '@', is (local, domain), whatever '@' the local part holds |
| UserModels.NormalizeEmail | backend/App_Authentication/models.py:14 | an address whose stripped form has no '@' is kept exactly as given; otherwise the result still holds an '@' and is as long as the stripped address |
| UserModels.NormalizeEmailOfAddress | backend/App_Authentication/models.py:14 | an address without surrounding white space keeps its local part and its last '@' and gets its domain lower-cased |
| UserModels.NormalizeEmailIdempotent | backend/App_Authentication/models.py:14 | normalising a normalised address changes nothing |
| UserModels.CreateUser | backend/App_Authentication/models.py:11-18 | a missing or empty e-mail raises "The Email field must be set"; otherwise the user is built with the normalised e-mail, the password and the extra fields |
| UserModels.CreateSuperuser | backend/App_Authentication/models.py:20-30 | `is_staff`, then `is_superuser`, must be absent or exactly True, else the matching error; on success both are True, the fields are `SuperuserFields`, the e-mail is normalised and the e-mail rule of create_user applies: with both flags accepted, a missing or empty e-mail gives exactly the e-mail error |
| UserModels.SuperuserFields | backend/App_Authentication/models.py:21-23 | the fields passed on are the given ones plus `is_staff`, `is_superuser` and `is_active`; every given value is kept and each absent flag is True |
| UserModels.SuperuserExamples | backend/App_Authentication/models.py:21-27 | an explicit `is_active=False` survives, and `is_staff=1` (truthy but not True) is refused |
| Uploads.Extension | backend/App_Authentication/utils.py:12-15 | the extension is the text after the last '.', or 'webp' when that text is empty; it is never empty and has no '.' |
| Uploads.RenameProfilePicture | backend/App_Authentication/utils.py:7-18 | the path is exactly the upload directory, the uuid, a '.' and the file's extension: it has that length, the uuid and the '.' sit at their places, and its text after the last '.' is the extension |
| Text.AfterLastOfSuffix | backend/App_Authentication/utils.py:12 | the text after the last '.' of prefix.ext is ext, for an ext without '.' |
| Uploads.ExtensionWithoutDot | backend/App_Authentication/utils.py:12-15 | a name without '.' is its own extension; an empty name gets 'webp' |
| Uploads.ExtensionOfTrailingDot | backend/App_Authentication/utils.py:13-15 | a name ending in '.' gets 'webp' |
| Uploads.ExtensionOfDottedName | backend/App_Authentication/utils.py:12 | only the text after the last '.' counts (archive.tar.gz gives gz) |
| Clock.SecondsField | frontend/src/features/auth/Register.jsx:45-49 | the seconds field of `formatTime` always has exactly two digits |
| Clock.LastTwo | frontend/src/features/quiz/Quiz.jsx:82 | `slice(-2)` keeps at most two characters |
| Clock.LastTwoIsEnding | frontend/src/features/quiz/Quiz.jsx:82 | what `slice(-2)` keeps is an ending of the string, two characters long or the whole of a shorter string |
| Clock.PaddedSeconds | frontend/src/features/quiz/Quiz.jsx:82 | for a seconds value below 60, `("0" + s).slice(-2)` is the same text as `formatTime`'s padding |
| Clock.QuizClockIsFormatTime | frontend/src/features/quiz/Quiz.jsx:82 | the quiz header and the auth pages' `formatTime` render every non-negative number of seconds identically |
| Clock.FormatTimeRoundTrip | frontend/src/features/auth/Register.jsx:45-49 | the display reads back: digits before ':', two digits below 60 after it, and minutes times 60 plus seconds is the input |
| Clock.FormatTime | frontend/src/features/auth/Register.jsx:45-49 | the auth pages' countdown is digits, ':' and exactly two digits |
| Clock.QuizClock | frontend/src/features/quiz/Quiz.jsx:82 | the quiz header's countdown has the same shape: digits, ':' and exactly two digits |
| AuthClient.ErrorOf | frontend/src/features/auth/Register.jsx:141 | `data?.error` is the body's error text when the body has one, and nothing otherwise |
| AuthClient.ServerErrorOr | frontend/src/features/auth/Register.jsx:141 | a non-empty server error is shown as it is; in every other case the fallback is shown, so a non-empty fallback never leaves the message empty |
| AuthClient.RegisterErrorText | frontend/src/features/auth/Register.jsx:88-94 | a body with an `error` shows that error as it is (an empty one shows nothing); no response or a non-object body shows "Registration failed" |
| AuthClient.LoginErrorText | frontend/src/features/auth/Login.jsx:46-54 | with a response, its `error` or the credentials default; with an unanswered request, the network message; otherwise "Error: " followed by the error's message; never empty |
| AuthClient.RegisterErrorShowsEveryMessage | frontend/src/features/auth/Register.jsx:88-94 | every message of every field of a serializer error body occurs in the text the registration page shows |
| AuthClient.AsData | backend/App_Authentication/views.py:110 | an `{'error': ...}` body of the back end is read by the pages as exactly that error text |
| AuthClient.RoleHome | frontend/src/features/auth/Login.jsx:37-44 | students land on /student and teachers on /teacher (both directions); every other role on /courses |
| LoginPage.Login.constructor | frontend/src/features/auth/Login.jsx:10-13 | empty fields and no error, token, session or navigation |
| LoginPage.Login.Fill | frontend/src/features/auth/Login.jsx:76-87 | the inputs store what is typed; nothing else changes |
| LoginPage.Login.Submit | frontend/src/features/auth/Login.jsx:15-58 | a request is sent exactly when both fields are non-empty; success stores the token and the role/e-mail session and goes to the role's home; a failure shows the classified error and stores nothing |
| LoginPage.ExampleWrongPassword | frontend/src/features/auth/Login.jsx:48-49 | a wrong password answered by the back end's 401 shows the back end's own "Invalid email or password" |
| RegisterPage.RegisterFormError | frontend/src/features/auth/Register.jsx:56-71 | the form passes its client checks exactly when a role is chosen, the two passwords are equal and the password matches the strength expression |
| RegisterPage.Register.constructor | frontend/src/features/auth/Register.jsx:11-26 | empty fields, no code sent, 600 seconds on the code clock and 60 on the resend cooldown |
| RegisterPage.Register.Fill | frontend/src/features/auth/Register.jsx:202-204 | the inputs store what is typed; clocks, messages and session are untouched |
| RegisterPage.Register.TickExpiry | frontend/src/features/auth/Register.jsx:29-35 | the code clock counts down by one only after the code was sent and while above zero; nothing else changes |
| RegisterPage.Register.TickCooldown | frontend/src/features/auth/Register.jsx:37-43 | the resend cooldown counts down under the same two conditions; nothing else changes |
| RegisterPage.Register.SubmitRegistration | frontend/src/features/auth/Register.jsx:51-98 | a failing client check shows its message and sends nothing; otherwise the request (role lower-cased) is sent; success shows "OTP sent to" the e-mail and restarts both clocks; a failure shows the server's error text; the inputs are kept |
| RegisterPage.Register.SubmitCode | frontend/src/features/auth/Register.jsx:100-145 | the code is sent exactly when one was sent and time is left; success stores the token (if a non-empty one came) and the role/e-mail session and heads for the role's home; a failure shows the server error or "Verification failed"; the inputs and clocks are kept |
| RegisterPage.Register.Resend | frontend/src/features/auth/Register.jsx:147-161 | a resend is sent exactly when the cooldown is over; success restarts both clocks; a failure shows the server error or "Resend failed"; inputs, token and session are kept |
| RegisterPage.Register.BackToDetails | frontend/src/features/auth/Register.jsx:283-289 | "Back to details" shows the registration form again with everything typed so far; the clocks stop where they are |
| RegisterPage.UnderscorePasswordRefused | backend/App_Authentication/serializers.py:23-35 | a request with a known role and a password whose only non-alphanumeric characters are '_' or '-' is refused with just the special-character message (such a password has nothing to strip) |
| RegisterPage.SingleFieldMessage | frontend/src/features/auth/Register.jsx:90-91 | a field-error body holding a single message is shown as that message |
| RegisterPage.UnderscorePasswordOnPage | frontend/src/features/auth/Register.jsx:51-98 | such a password passes the page's own checks, is sent, and the page then shows the back end's special-character message |
| TimezoneAdmin.TypedDigits | frontend/src/features/admin/TimezoneManager.jsx:194 | the kept text is made of digits only |
| TimezoneAdmin.FormatOffsetTime | frontend/src/features/admin/TimezoneManager.jsx:193-202 | the formatted time has at most 5 characters, every one a digit except a ':' at position 2; it is 5 long exactly when 4 or more digits were typed and at most 2 long exactly when at most 2 were |
| TimezoneAdmin.FirstFourDigits | frontend/src/features/admin/TimezoneManager.jsx:194-195 | at most four digits, a prefix of the typed digits |
| TimezoneAdmin.FormatKeepsFirstFourDigits | frontend/src/features/admin/TimezoneManager.jsx:193-202 | the digits of the formatted text are exactly the first four typed: none lost, none invented |
| TimezoneAdmin.DigitsAroundColon | frontend/src/features/admin/TimezoneManager.jsx:198-199 | inserting the ':' between two runs of digits adds no digit and drops none |
| TimezoneAdmin.FormatIdempotent | frontend/src/features/admin/TimezoneManager.jsx:193-202 | feeding the formatted text back through the handler leaves it unchanged |
| TimezoneAdmin.ComposeName | frontend/src/features/admin/TimezoneManager.jsx:60 | the stored name starts with the continent and '/', and is no longer than continent, '/' and city |
| TimezoneAdmin.ComposedNameSplitsBack | frontend/src/features/admin/TimezoneManager.jsx:60 | splitting a composed name at its first '/' gives back the continent and the trimmed city |
| TimezoneAdmin.ComposeOffset | frontend/src/features/admin/TimezoneManager.jsx:61 | the stored offset starts with the sign and is no longer than sign and time |
| TimezoneAdmin.EditForm | frontend/src/features/admin/TimezoneManager.jsx:110-121 | editing fills a non-empty continent, a city without '/', a one-character sign, and for a non-empty offset sign and time re-join to it |
| TimezoneAdmin.EditRoundTrip | frontend/src/features/admin/TimezoneManager.jsx:110-121 | for a well-formed record (one '/', non-empty continent, trimmed city and time) composing the edit form rebuilds the stored name and offset |
| TimezoneAdmin.EditDropsDeepTail | frontend/src/features/admin/TimezoneManager.jsx:111 | a name with two or more '/' loses everything after its second part when edited and saved |
| TimezoneAdmin.OwnNameIsNoDuplicate | frontend/src/features/admin/TimezoneManager.jsx:64-67 | saving a record under its own name is not a duplicate when no record with another id shares its key |
| TimezoneAdmin.DuplicateIgnoresEditedRecord | frontend/src/features/admin/TimezoneManager.jsx:64-67 | while an id is edited, the check is the plain check over the records with other ids, both directions |
| TimezoneAdmin.SearchTimezones | frontend/src/features/admin/TimezoneManager.jsx:124-127 | a record is listed exactly when its name or offset contains the query, ignoring case |
| TimezoneAdmin.SearchKeepsOrder | frontend/src/features/admin/TimezoneManager.jsx:124-127 | the listed records keep the list's order |
| TimezoneAdmin.EmptySearchKeepsAll | frontend/src/features/admin/TimezoneManager.jsx:124-127 | an empty query lists every record |
| TimezoneAdmin.SubmitDecision | frontend/src/features/admin/TimezoneManager.jsx:49-85 | a request is only sent for a 5-character time and a name that is no duplicate, and it is an update exactly when an id is edited |
| TimezoneAdmin.SubmitDecisionCases | frontend/src/features/admin/TimezoneManager.jsx:49-85 | the stops in order: nothing for an empty city or time, the alert exactly for a time of another length, the duplicate modal for a duplicate name, otherwise an update of the edited id or an add |
| TimezoneAdmin.EditThenSubmitResendsRecord | frontend/src/features/admin/TimezoneManager.jsx:49-121 | editing a well-formed record and saving at once sends that record back unchanged as an update |
| TimezoneAdmin.TimezoneEditor.constructor | frontend/src/features/admin/TimezoneManager.jsx:9-32 | empty list, the Asia/+ empty form, nothing edited, no modal, no error |
| TimezoneAdmin.TimezoneEditor.Load | frontend/src/features/admin/TimezoneManager.jsx:34-43 | the list is replaced on success; a failure keeps it and sets the load error |
| TimezoneAdmin.TimezoneEditor.SetFields | frontend/src/features/admin/TimezoneManager.jsx:154-181 | the continent, city and sign inputs overwrite their fields and keep the time |
| TimezoneAdmin.TimezoneEditor.TypeTime | frontend/src/features/admin/TimezoneManager.jsx:193-202 | whatever is typed, the stored time is the formatted text, at most 5 characters |
| TimezoneAdmin.TimezoneEditor.SetQuery | frontend/src/features/admin/TimezoneManager.jsx:254-255 | the search text is stored; nothing else changes |
| TimezoneAdmin.TimezoneEditor.Visible | frontend/src/features/admin/TimezoneManager.jsx:124-127 | the shown list is the records matching the current query |
| TimezoneAdmin.TimezoneEditor.Submit | frontend/src/features/admin/TimezoneManager.jsx:49-95 | the outcome is the decision on the old state; the alert shows exactly for a bad time, the duplicate modal opens for a duplicate; a saved request shows the add or update message and resets the form; a failed one sets the save error; nothing else changes |
| TimezoneAdmin.TimezoneEditor.Save | frontend/src/features/admin/TimezoneManager.jsx:78-94 | success shows the add or update message and resets the form and the edited id; failure sets the save error and keeps the form |
| TimezoneAdmin.TimezoneEditor.Edit | frontend/src/features/admin/TimezoneManager.jsx:110-121 | the form is filled from the record and its id becomes the edited one |
| TimezoneAdmin.TimezoneEditor.Cancel | frontend/src/features/admin/TimezoneManager.jsx:228-238 | while an id is edited (the only time Cancel is shown) the form and the id are reset; otherwise nothing changes |
| TimezoneAdmin.TimezoneEditor.AskDelete | frontend/src/features/admin/TimezoneManager.jsx:323 | a row's delete button opens the confirmation for its id |
| TimezoneAdmin.TimezoneEditor.ConfirmDelete | frontend/src/features/admin/TimezoneManager.jsx:97-108 | a delete is requested exactly when a (truthy) id is pending; the pending id is then cleared whatever the outcome, with the deleted message or the delete error |
| TimezoneAdmin.TimezoneEditor.DismissSuccess | frontend/src/features/admin/TimezoneManager.jsx:356 | OK closes the success modal and changes nothing else |
| TimezoneAdmin.TimezoneEditor.CancelDelete | frontend/src/features/admin/TimezoneManager.jsx:380 | Cancel closes the delete confirmation and changes nothing else |
| TimezoneAdmin.TimezoneEditor.DismissDuplicate | frontend/src/features/admin/TimezoneManager.jsx:410 | the duplicate modal's button closes it and changes nothing else |
| SubjectTagAdmin.Key | frontend/src/features/admin/SubjectTagManager.jsx:50-52 | the comparison key is no longer than the name and has no surrounding white space |
| Text.ToLowerIdempotent | frontend/src/features/admin/SubjectTagManager.jsx:50-52 | lower-casing twice is lower-casing once |
| SubjectTagAdmin.KeyIdempotent | frontend/src/features/admin/SubjectTagManager.jsx:50-52 | a key is its own key: the check ignores exactly case and surrounding spaces |
| SubjectTagAdmin.DuplicateIgnoresCaseAndSpaces | frontend/src/features/admin/SubjectTagManager.jsx:50-53 | a name is a duplicate exactly when its key is |
| SubjectTagAdmin.OwnNameIsNoDuplicate | frontend/src/features/admin/SubjectTagManager.jsx:51-53 | saving a tag under its own name is not a duplicate when no tag with another id shares its key |
| SubjectTagAdmin.SearchTags | frontend/src/features/admin/SubjectTagManager.jsx:94-96 | a tag is listed exactly when its name contains the query, ignoring case |
| SubjectTagAdmin.SearchKeepsOrder | frontend/src/features/admin/SubjectTagManager.jsx:94-96 | the listed tags keep the list's order |
| SubjectTagAdmin.EmptySearchKeepsAll | frontend/src/features/admin/SubjectTagManager.jsx:94-96 | an empty query lists every tag |
| SubjectTagAdmin.SubmitDecision | frontend/src/features/admin/SubjectTagManager.jsx:45-68 | nothing happens exactly for an empty name; the duplicate modal exactly for a non-empty duplicate; otherwise the name as typed is sent, as an update of the edited id exactly when one is set |
| SubjectTagAdmin.EditThenSubmitResendsTag | frontend/src/features/admin/SubjectTagManager.jsx:40-68 | editing a named tag and saving at once sends it back unchanged as an update |
| SubjectTagAdmin.SubjectTagEditor.constructor | frontend/src/features/admin/SubjectTagManager.jsx:9-22 | empty list and form, nothing edited, no modal and no error |
| SubjectTagAdmin.SubjectTagEditor.Load | frontend/src/features/admin/SubjectTagManager.jsx:28-38 | the list is replaced on success; a failure keeps it and sets the fetch error |
| SubjectTagAdmin.SubjectTagEditor.SetName | frontend/src/features/admin/SubjectTagManager.jsx:116 | the name input stores what is typed |
| SubjectTagAdmin.SubjectTagEditor.SetQuery | frontend/src/features/admin/SubjectTagManager.jsx:165 | the search text is stored; nothing else changes |
| SubjectTagAdmin.SubjectTagEditor.Visible | frontend/src/features/admin/SubjectTagManager.jsx:94-96 | the shown list is the tags matching the current query |
| SubjectTagAdmin.SubjectTagEditor.Edit | frontend/src/features/admin/SubjectTagManager.jsx:40-43 | the tag's id and name are loaded into the form |
| SubjectTagAdmin.SubjectTagEditor.Cancel | frontend/src/features/admin/SubjectTagManager.jsx:138-149 | while an id is edited both are cleared; otherwise nothing changes |
| SubjectTagAdmin.SubjectTagEditor.Submit | frontend/src/features/admin/SubjectTagManager.jsx:45-77 | the outcome is the decision on the old state; a duplicate opens the modal; a saved request shows the add or update message and clears the form; a failure shows the server's message or "Operation failed."; nothing else changes |
| SubjectTagAdmin.SubjectTagEditor.AskDelete | frontend/src/features/admin/SubjectTagManager.jsx:209 | a row's delete button opens the confirmation for its id |
| SubjectTagAdmin.SubjectTagEditor.ConfirmDelete | frontend/src/features/admin/SubjectTagManager.jsx:79-92 | a delete is requested exactly when a (truthy) id is pending; the pending id is then cleared whatever the outcome, with the deleted message or the delete error |
| SubjectTagAdmin.SubjectTagEditor.DismissSuccess | frontend/src/features/admin/SubjectTagManager.jsx:238 | OK closes the success modal and changes nothing else |
| SubjectTagAdmin.SubjectTagEditor.CancelDelete | frontend/src/features/admin/SubjectTagManager.jsx:285 | Cancel closes the delete confirmation and changes nothing else |
| SubjectTagAdmin.SubjectTagEditor.DismissDuplicate | frontend/src/features/admin/SubjectTagManager.jsx:261 | the duplicate modal's button closes it and changes nothing else |
| InstructorProfile.InstructorForm.constructor | frontend/src/features/profile/InstructorProfileForm.jsx:9-14 | the list is the one passed in and the input is empty |
| InstructorProfile.InstructorForm.TypeLanguage | frontend/src/features/profile/InstructorProfileForm.jsx:156-157 | the input stores what is typed; the list is unchanged |
| InstructorProfile.InstructorForm.AddLanguage | frontend/src/features/profile/InstructorProfileForm.jsx:25-34 | the trimmed input is appended, and the input cleared, exactly when it is non-empty and not yet listed; a refused add changes nothing; a duplicate-free list stays duplicate-free |
| InstructorProfile.InstructorForm.RemoveLanguage | frontend/src/features/profile/InstructorProfileForm.jsx:36-41 | every occurrence of the value goes, no other entry is lost and the rest keep their order; duplicate-freedom is kept; a missing list counts as empty |
| InstructorProfile.AddThenRemove | frontend/src/features/profile/InstructorProfileForm.jsx:25-41 | adding a fresh language and removing it again restores the list (a missing list comes back empty) |
| LearnerProfile.TagList | frontend/src/features/profile/LearnerProfileForm.jsx:17-32 | the tag list is the array itself, else the `results` array, else empty; a failed request leaves it empty |
| LearnerProfile.CurrentInterests | frontend/src/features/profile/LearnerProfileForm.jsx:36 | `interest_ids` when present (even empty), else the ids of `interests` in order, else none |
| LearnerProfile.Toggled | frontend/src/features/profile/LearnerProfileForm.jsx:38-43 | the toggled id is in the new list exactly when it was not in the old one; every other id keeps its membership |
| LearnerProfile.ToggleKeepsNoDuplicates | frontend/src/features/profile/LearnerProfileForm.jsx:38-43 | toggling keeps a duplicate-free list duplicate-free |
| LearnerProfile.ToggleTwice | frontend/src/features/profile/LearnerProfileForm.jsx:38-43 | toggling an id twice restores the membership of every id, and the very list when the id was absent |
| LearnerProfile.FilteredTags | frontend/src/features/profile/LearnerProfileForm.jsx:66-68 | a tag is kept exactly when it has a non-empty name containing the term, ignoring case |
| LearnerProfile.SelectedTags | frontend/src/features/profile/LearnerProfileForm.jsx:100-101 | the selected list holds exactly the loaded tags whose id is an interest, whatever the term |
| LearnerProfile.AvailableTags | frontend/src/features/profile/LearnerProfileForm.jsx:131-134 | the available list holds exactly the matching tags whose id is not an interest |
| LearnerProfile.Partition | frontend/src/features/profile/LearnerProfileForm.jsx:100-134 | the two lists share no tag and together show every tag the term matches |
| LearnerProfile.ListsKeepOrder | frontend/src/features/profile/LearnerProfileForm.jsx:100-134 | both lists keep the order of the loaded tags |
| LearnerProfile.LearnerForm.constructor | frontend/src/features/profile/LearnerProfileForm.jsx:7-14 | no tags, empty search, tags loading |
| LearnerProfile.LearnerForm.LoadTags | frontend/src/features/profile/LearnerProfileForm.jsx:17-32 | the loaded list is the normalised tag list and loading ends |
| LearnerProfile.LearnerForm.SetSearch | frontend/src/features/profile/LearnerProfileForm.jsx:87-88 | the search term is stored; data and tags unchanged |
| LearnerProfile.LearnerForm.ToggleInterest | frontend/src/features/profile/LearnerProfileForm.jsx:34-45 | the new list is written to `interest_ids`; this id's membership flips and no other id's changes |
| Navbar.SearchResults | frontend/src/components/Navbar.jsx:22-35 | no results for a query of at most one character; otherwise exactly the catalog courses whose title or author contains the query, ignoring case; always in catalog order |
| Navbar.SubsequenceOfEmpty | frontend/src/components/Navbar.jsx:25 | the empty result list is in catalog order for every catalog |
| Navbar.LongerQueryNarrows | frontend/src/components/Navbar.jsx:26-31 | once the query has two characters, typing more can only drop results, never add one |
| Navbar.LowerOfConcat | frontend/src/components/Navbar.jsx:27-29 | lower-casing distributes over concatenation |
| Navbar.ContainsPrefixOfQuery | frontend/src/components/Navbar.jsx:27-29 | a text that contains a query contains every prefix of it |
| Navbar.DashboardPath | frontend/src/components/Navbar.jsx:37-45 | the login page without a user; /student, /teacher, /admin exactly for those roles; nothing else is returned |
| Navbar.MenuLinks | frontend/src/components/Navbar.jsx:136-180 | Courses and Categories come first for everyone; the Dashboard tab exactly for a signed-in user, the teacher tab exactly for teachers and admins, the admin tab exactly for admins; no tab twice |
| Navbar.DashboardTabIgnoresRole | frontend/src/components/Navbar.jsx:37-180 | teachers and admins get a Dashboard tab to /student although their dashboard path is another one, which is still among their tabs |
| Navbar.HasUnread | frontend/src/components/Navbar.jsx:193 | the unread dot shows exactly when some notification has `read == 0` |
| Navbar.AllReadHidesDot | frontend/src/components/Navbar.jsx:193 | once every notification is read the dot is hidden |
| Navbar.NavbarState.constructor | frontend/src/components/Navbar.jsx:13-17 | empty query and results, every menu closed |
| Navbar.NavbarState.Search | frontend/src/components/Navbar.jsx:22-35 | the query is kept as typed and the results are the search results for it; the menus are unchanged |
| Navbar.NavbarState.ClickResult | frontend/src/components/Navbar.jsx:107-110 | following a result clears the query and the results; the menus are unchanged |
| Navbar.NavbarState.ToggleMenu | frontend/src/components/Navbar.jsx:316 | the mobile menu flips; nothing else changes |
| Navbar.NavbarState.CloseMenu | frontend/src/components/Navbar.jsx:340-392 | following a link of the mobile menu closes it; nothing else changes |
| Navbar.NavbarState.ToggleNotifications | frontend/src/components/Navbar.jsx:187 | the notification panel flips; nothing else changes |
| Navbar.NavbarState.ToggleProfile | frontend/src/components/Navbar.jsx:239 | the profile menu flips; nothing else changes |
| Navbar.NavbarState.ClickOutsideNotifications | frontend/src/components/Navbar.jsx:19-20 | the notification panel closes; nothing else changes |
| Navbar.NavbarState.CloseProfile | frontend/src/components/Navbar.jsx:19-20 | the profile menu closes; nothing else changes |
| Routing.Guard | frontend/src/components/ProtectedRoute.jsx:9-26 | the spinner exactly while loading; the login redirect exactly for a missing user; the home redirect exactly for a role outside a given list; the page otherwise |
| Routing.GuardWithContext | frontend/src/components/ProtectedRoute.jsx:7-19 | with the auth context's (absent) loading flag the spinner never shows and, without a role list, the page shows exactly for a signed-in user |
| Routing.EmptyAllowListAdmitsNobody | frontend/src/components/ProtectedRoute.jsx:21-24 | an empty role list sends every signed-in user home |
| Routing.WiderListAdmitsMore | frontend/src/components/ProtectedRoute.jsx:21-26 | adding roles to the list never turns away someone it admitted |
| Routing.Dashboard | frontend/src/pages/Dashboard.jsx:11-23 | the student, teacher and admin dashboards exactly for those roles; otherwise the login page |
| Routing.DashboardAgreesWithNavbar | frontend/src/pages/Dashboard.jsx:11-23 | the dashboard switch and the bar's dashboard path agree for every user, signed in or not |
| Routing.ViewPath | frontend/src/pages/Dashboard.jsx:11-23 | a redirect goes to its own path, and each dashboard is mounted at its own route, distinct from the other two |
| Routing.LoginLandingVersusDashboard | frontend/src/features/auth/Login.jsx:37-44 | after login students and teachers land on their dashboard path, while admins and other roles land elsewhere (/courses) |
| CourseDetail.CourseComments | frontend/src/pages/CourseDetail.jsx:24-26 | exactly the comments of this course, in file order |
| CourseDetail.Author | frontend/src/pages/CourseDetail.jsx:45 | the user's id when it is set and non-empty, else "guest" |
| CourseDetail.FindName | frontend/src/pages/CourseDetail.jsx:56-58 | nothing exactly when no record has the id; otherwise the name of the first record with it |
| CourseDetail.UserName | frontend/src/pages/CourseDetail.jsx:55-61 | a student's name wins over a teacher's, which wins over "Anonymous" |
| CourseDetail.UserNameSources | frontend/src/pages/CourseDetail.jsx:55-61 | the name shown belongs to a student with the id when there is one, else to a teacher with the id when there is one, and is "Anonymous" when neither list has the id |
| CourseDetail.StarRow | frontend/src/pages/CourseDetail.jsx:353-358 | the row renders exactly for a rating from 0 to 5 (otherwise the array length is invalid), with `rating` filled stars and five stars in all |
| CourseDetail.CourseDetailPage.constructor | frontend/src/pages/CourseDetail.jsx:20-26 | no module open, no rating, empty comment, and the course's comments |
| CourseDetail.CourseDetailPage.ToggleModule | frontend/src/pages/CourseDetail.jsx:35-36 | the open module closes and any other opens, so at most one is open; nothing else changes |
| CourseDetail.CourseDetailPage.Rate | frontend/src/pages/CourseDetail.jsx:38 | a click on star 1 to 5 stores that rating; nothing else changes |
| CourseDetail.CourseDetailPage.TypeComment | frontend/src/pages/CourseDetail.jsx:23 | the comment text is stored; nothing else changes |
| CourseDetail.CourseDetailPage.AddComment | frontend/src/pages/CourseDetail.jsx:40-53 | a blank comment changes nothing; otherwise the new comment (clock id, author, text as typed, rating) goes first, the form is reset, and its star row renders |
| CategoryCourses.LoweredCategories | frontend/src/pages/CategoryCourses.jsx:11 | the course's categories, each lower-cased, in order |
| CategoryCourses.CategoryFilter | frontend/src/pages/CategoryCourses.jsx:10-12 | exactly the catalog courses with a category whose lower-case form equals the route's name, in catalog order |
| CategoryCourses.UpperCaseNameFindsNothing | frontend/src/pages/CategoryCourses.jsx:10-12 | a route name holding an upper-case letter finds no course, since only the course side is lower-cased |
| CategoryCourses.LinkFindsItsCourses | frontend/src/pages/Categories.jsx:27 | a link built by lower-casing a course's category finds that course |
| CategoryCourses.FormattedName | frontend/src/pages/CategoryCourses.jsx:14-15 | same length; the first character upper-cased and the rest unchanged |
| CategoryCourses.FormattedNameKeepsLetters | frontend/src/pages/CategoryCourses.jsx:14-15 | the heading equals the route's name up to case |
| CategoryCourses.CategoryPage | frontend/src/pages/CategoryCourses.jsx:10-41 | the heading is the formatted name; the "No courses found" line shows exactly when the filter is empty, otherwise the cards are the filtered courses |
| CoursesPage.Abs | frontend/src/pages/Courses.jsx:40 | the magnitude of a divisor: non-negative and equal to it or its negation |
| CoursesPage.Rem | frontend/src/pages/Courses.jsx:37-113 | JavaScript `%`: NaN exactly for a zero divisor; for a non-negative dividend the remainder by the divisor's magnitude, below it, and the dividend itself when already below; a negative dividend gives a remainder in (-abs n, 0] |
| CoursesPage.SmallRemainder | frontend/src/pages/Courses.jsx:48 | a non-negative number below the divisor is its own remainder |
| CoursesPage.Step | frontend/src/pages/Courses.jsx:38-113 | one timer firing: NaN exactly when the counter is NaN or the length is 0; a non-negative counter stays below the length's magnitude, and moves by the stride while it does not reach the length |
| CoursesPage.TicksStayInRange | frontend/src/pages/Courses.jsx:47-113 | a counter started at 0 over a non-empty list stays a valid index however often its timer fires |
| CoursesPage.EmptyListGivesNaN | frontend/src/pages/Courses.jsx:47-113 | over an empty list the counter is NaN from the first firing on |
| CoursesPage.Bound | frontend/src/pages/Courses.jsx:131-133 | `slice` reads a bound as an index between 0 and the length, and an in-range bound as itself |
| CoursesPage.Window | frontend/src/pages/Courses.jsx:131-133 | `slice(i, i + w)`: at most `w` items; exactly the `w` items from `i` when they exist, the tail from `i` when fewer remain, nothing for NaN |
| CoursesPage.NewlyAddedRowIsFull | frontend/src/pages/Courses.jsx:38-42 | with more than three newly added courses the row always shows three consecutive courses |
| CoursesPage.NewlyAddedRowEmptiesWithThree | frontend/src/pages/Courses.jsx:38-42 | with exactly three courses the modulus is 0, the counter becomes NaN on the first firing and the row is empty from then on |
| CoursesPage.NewlyAddedRowShortWithFewer | frontend/src/pages/Courses.jsx:288-289 | with fewer than three courses the row is never full |
| CoursesPage.NoticeCounterBeforeWrap | frontend/src/pages/Courses.jsx:69-73 | until it wraps, the notice counter goes 0, 4, 8, ... |
| CoursesPage.LastGroup | frontend/src/pages/Courses.jsx:69-133 | the last group of notices starts at the largest multiple of four below the count and holds the remainder of the count by four |
| CoursesPage.NoticeWindowShort | frontend/src/pages/Courses.jsx:69-133 | when the count is not a multiple of four, the counter reaches a window holding fewer than four notices |
| CoursesPage.MultipleOfFourBelow | frontend/src/pages/Courses.jsx:71 | between two multiples of four the smaller is at least four below |
| CoursesPage.StepOfMultipleOfFour | frontend/src/pages/Courses.jsx:71 | a step of four from a multiple of four below a multiple of four lands on the next multiple or wraps to 0 |
| CoursesPage.NoticeCounterIsMultiple | frontend/src/pages/Courses.jsx:69-73 | when the count is a positive multiple of four the counter is always a multiple of four below it |
| CoursesPage.NoticeWindowFull | frontend/src/pages/Courses.jsx:69-133 | ... so every notice window then holds four notices |
| CoursesPage.TrendingCourses | frontend/src/pages/Courses.jsx:104-106 | exactly the catalog courses whose id is trending, in catalog order |
| CoursesPage.ModBelowTwice | frontend/src/pages/Courses.jsx:120-123 | below twice the length, the remainder takes off at most one length |
| CoursesPage.VisibleIndices | frontend/src/pages/Courses.jsx:118-124 | the previous, current and next positions are valid indices, each one step from the current around the ring, and pairwise different with three or more courses |
| CoursesPage.VisibleCourses | frontend/src/pages/Courses.jsx:118-128 | three trending courses with the current one in the middle |
| CoursesPage.VisibleCoursesOfOne | frontend/src/pages/Courses.jsx:118-128 | a single trending course is shown three times |
| CoursesPage.TimerListed | frontend/src/pages/Courses.jsx:37-113 | the page has exactly eight timers |
| CoursesPage.StartCounters | frontend/src/pages/Courses.jsx:19-28 | every counter starts at 0 |
| CoursesPage.StepKeepsCounterOk | frontend/src/pages/Courses.jsx:37-113 | a firing keeps a counter a non-negative integer below its modulus's size, or NaN only over a zero modulus |
| CoursesPage.CoursesPageState.constructor | frontend/src/pages/Courses.jsx:19-106 | every counter at 0, the trending courses filtered from the catalog, and the counters in range |
| CoursesPage.CoursesPageState.Tick | frontend/src/pages/Courses.jsx:37-113 | one timer firing steps its own counter by its stride modulo its list's length and leaves the others; the counters stay in range |
| CoursesPage.CoursesPageState.TrendingRow | frontend/src/pages/Courses.jsx:118-130 | no row exactly without trending courses; otherwise three courses around the current one |
| CoursesPage.CoursesPageState.NoticeRow | frontend/src/pages/Courses.jsx:131-133 | the four notices from the counter on, fewer at the end of the list, none without notices |
| CoursesPage.CoursesPageState.NewlyAddedRow | frontend/src/pages/Courses.jsx:288-289 | with more than three courses, the three from the counter on |

## Left out

- Rendering, styling, animation and theming; only the values the pages compute are modelled.
- Network calls: every service call (`authService.js`, `adminService.js`, `profileService.js`) is an input outcome — success, an error with or without a response body, or no response — rather than a request.
- Timers: `setInterval`/`setTimeout` callbacks are explicit `Tick` calls; the hiding of the reset page's resend notice and the reset page's redirect to /login three seconds after success are explicit calls (`HideResendNotice`, `LeaveAfterReset`). The registration page's redirect 1.5 seconds after a verified code is taken at once, inside `SubmitCode`. The clearing of intervals on unmount is not modelled.
- QuizRunner.Attempt.Tick: the quiz's interval is recreated whenever an answer changes, because its effect depends on the answers, so each answer restarts the running second; the model counts whole ticks and does not capture that restart.
- Clock and randomness: the current time is an integer number of seconds and the OTP, the upload identifier and `Date.now()` are parameters.
- Django plumbing: `make_password`/`authenticate` are an injective `Hashed` wrapper, the token is not modelled, `send_mail` is a `mailOk` input, the serializers' e-mail fields (their stripping and format check) are not modelled — the e-mail reaches the views as given, and the password validators attached to the serializer field (Django's `validate_password`) are not modelled — only the serializer's own rules are.
- `models.py` as present defines no `TemporaryRegistration` or `CommonProfile`, and `serializers.py` as present has no reset serializers; the pending registration and the profile follow their use in `views.py`, and the reset requests' own field validation is not part of this model.
- The `User` model (`backend/App_Authentication/models.py:33-40`) declares no `otp` or `otp_created_at` column, although the reset views read and write both; the model gives every user record those two fields, as the views assume.
- The registration serializer's exact e-mail lookup is taken as case-sensitive, as a default SQLite or PostgreSQL column compares; under a case-insensitive collation both lookups agree and only `UniqueEmailMessage` is reached.
- Case folding is ASCII only, so the domain `normalize_email` lower-cases keeps its non-ASCII capitals in the model; strings are sequences of characters with no Unicode normalisation.
- Floating point and dates: the progress-bar width, the experience and rating fields of the instructor form, and the date sorts of the course page (the sorted lists are inputs).
- `process_profile_picture` (image conversion) is not part of this model; only `rename_profile_picture` is.
- The profile forms' `handleSubmit`, `handleInputChange` and `handleExperienceChange` (network calls and number parsing), and the loading and submitting flags of every page.
- Reloads after a save or a delete in the admin editors are separate `Load` calls.
- Accounts.AuthService.VerifyOtp: the 500 response on a failed user creation carries the fixed text only, without the exception's message appended.
- Accounts.AuthService.ResendOtp: a pending record without a timestamp (where the subtraction raises) cannot arise, because every stored record carries one; the model keeps that as an invariant instead of modelling the exception.
- CoursesPage.CoursesPageState.NewlyAddedRow: the contract pins the row only for more than three courses; with three or fewer the modulus is 0 or negative and the row is described by the separate lemmas instead.
- Timezone and subject-tag ids are integers; the id 0 counts as unset, as JavaScript's truthiness does.
