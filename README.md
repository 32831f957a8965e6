# Quiz application: a verified model

A quiz application in several generations. The code has three Flask backends:

- the first one, under `backend/`: users and quizzes, with a helpers module and a token module;
- `backend/app`: users, JWT blacklisting, an admin panel, and Stripe and offline payments;
- `backend_v2`: quizzes with scored attempts, Stripe subscriptions and secure cookies.

There is also an Express server that keeps the quizzes in a JSON file (`server.cjs`). The React client has these parts:

- an auth context and a verifier that re-checks the login;
- a quiz context kept in local storage;
- the pages that list, create and solve quizzes.

This project models each of those files as one Dafny module and proves what they promise: the validators, the guards of each handler in their order, its error replies, and the rows it writes. Where the source changes state step by step, the model is a class whose methods state their whole new state. Examples are the tables the backends write, the server's quiz file, the reply headers, the attempt being scored, the quiz editor, the solving session and the verifier. The rest becomes functions and lemmas over values.

Conventions of the model:

- A database table is a class holding its rows as a sequence. Where the code catches a database error into a fallback result, the error is a boolean parameter `dbFails`.
- The clock is an integer parameter `now`, in seconds on the backends and in milliseconds on the client. Dates are those integers.
- A password hash is an opaque digest of the password. A JWT is the claims it carries; verifying its signature is framework code.
- Request bodies, replies and stored values are a `Json` datatype.
- Floating-point arithmetic in the source is exact here: integers where the source only counts, and exact rationals for the scores and percentages.

## Model

| member | source | states |
|---|---|---|
| BackendHelpers.SanitizeInput | backend/utils/helpers.py:13-29 | None gives None and any other input gives text; no `<` of the result is followed by a `>`; text without `<` or `>` only loses its surrounding whitespace |
| BackendHelpers.InputOf | backend/utils/helpers.py:17-22 | a JSON None stays None, a string is taken as it is, any other value is sanitized through its str() text |
| BackendHelpers.Clean | backend/utils/helpers.py:25-27 | after the strip and both substitutions no tag pair is left, and text without angle brackets is only stripped |
| BackendHelpers.CleanWithoutAngles | backend/utils/helpers.py:25-27 | the two substitutions change nothing on text without `<` or `>` |
| BackendHelpers.StripKeepsChars | backend/utils/helpers.py:25 | stripping only removes characters: every character left was in the input |
| BackendHelpers.FindCI | backend/utils/helpers.py:26 | the first position at or after `from` where the pattern occurs case-insensitively, or the end when there is none |
| BackendHelpers.FindChar | backend/utils/helpers.py:26-27 | the first position at or after `from` holding the character, or the end |
| BackendHelpers.ScriptMatchLen | backend/utils/helpers.py:26 | a lazy script match at the start is empty or spans at least the 16 characters of `<script>` and `</script>` |
| BackendHelpers.RemoveScripts | backend/utils/helpers.py:26 | removing script blocks never lengthens the text and adds no character |
| BackendHelpers.RemoveScriptsIdentity | backend/utils/helpers.py:26 | text without `<` has no script block to remove |
| BackendHelpers.StripTags | backend/utils/helpers.py:27 | removing `<…>` spans never lengthens the text |
| BackendHelpers.StripTagsSubset | backend/utils/helpers.py:27 | removing `<…>` spans adds no character |
| BackendHelpers.StripTagsNoPair | backend/utils/helpers.py:27 | after the second substitution no `<` is followed by a `>` |
| BackendHelpers.StripTagsIdentity | backend/utils/helpers.py:27 | text without `<` is left as it is |
| BackendHelpers.EmailShapeMatchesPattern | backend/utils/helpers.py:39 | the structural description of an address (local part, one `@`, dotted domain, final label of two or more letters) holds exactly when the regular expression matches |
| BackendHelpers.ValidateEmail | backend/utils/helpers.py:31-40 | None and "" are rejected, and every address of the pattern's shape is accepted |
| BackendHelpers.ValidateEmailIffPattern | backend/utils/helpers.py:35-40 | a text is accepted exactly when it matches the pattern, or is a match followed by one final newline (Python's `$`) |
| BackendHelpers.ShapeHasOneAt | backend/utils/helpers.py:39 | an address of the pattern's shape holds exactly one `@` |
| BackendHelpers.ValidEmailHasOneAt | backend/utils/helpers.py:35-40 | every accepted address holds exactly one `@` |
| BackendHelpers.NewlineSuffixAccepted | backend/utils/helpers.py:40 | a matching address followed by a newline is accepted too |
| V2Helpers.ValidatePasswordStrength | backend_v2/app/utils/helpers.py:6-18 | ok exactly when the password has six or more characters, a letter and a digit; each failing check gives its own message, in the source's order |
| V2Helpers.CalculateTimeAgo | backend_v2/app/utils/helpers.py:33-55 | no date gives nothing; a date always gives a bucket |
| V2Helpers.TimeAgoBuckets | backend_v2/app/utils/helpers.py:41-55 | each bucket covers exactly its range of ages (under a minute, hour, day, 30 days, or older), and the count reported is the number of whole units elapsed, within the bucket's bounds |
| V2Helpers.ReplaceDangerous | backend_v2/app/utils/helpers.py:60 | the same length, every character of `<>:"/\|?*` becomes `_`, every other stays |
| V2Helpers.SanitizeFilename | backend_v2/app/utils/helpers.py:57-66 | no dangerous character is left, and names of 255 characters or fewer are only substituted |
| V2Helpers.Shorten | backend_v2/app/utils/helpers.py:62-64 | truncation adds no character |
| V2Helpers.ShortFilenamePreserved | backend_v2/app/utils/helpers.py:57-66 | a short name keeps its length and every safe character in place |
| V2Helpers.LongFilenameTruncated | backend_v2/app/utils/helpers.py:62-64 | a long name is cut at its last `.`: 250 characters of the name part, then the extension when there is one; without an extension the result has at most 250 characters |
| V2Helpers.ShortenCases | backend_v2/app/utils/helpers.py:63-64 | the three shapes of `rsplit('.', 1)`: no dot, a dot with an extension, a final dot |
| V2Helpers.NamePart | backend_v2/app/utils/helpers.py:64 | `name[:250]` of the part before the dot is the text up to the dot or up to 250 characters |
| V2Helpers.LongExtensionExceedsLimit | backend_v2/app/utils/helpers.py:62-64 | a 300-character name with its only dot at index 10 comes back with all 300 characters |
| V2Helpers.SanitizeFilenameBounded | backend_v2/app/utils/helpers.py:57-66 | the intended limit: at most 255 characters and no dangerous character, equal to the source's result wherever that is within the limit |
| V2Helpers.LongExtensionBounded | backend_v2/app/utils/helpers.py:62-64 | the name with the 289-character extension comes back at exactly 255 characters |
| V2Helpers.Window | backend_v2/app/utils/helpers.py:80 | `offset(o).limit(l)` yields at most l rows, the rows from o on, in order, as many as there are |
| V2Helpers.PageCount | backend_v2/app/utils/helpers.py:83 | the ceiling division: the fewest pages of per_page rows that hold all rows |
| V2Helpers.PaginateQuery | backend_v2/app/utils/helpers.py:68-97 | per_page is the smaller of the two limits and 0 raises; the page count is the ceiling, has_prev/has_next and prev_num/next_num follow the page, and the items are the window at the page's offset |
| V2Helpers.RowOnItsPage | backend_v2/app/utils/helpers.py:77-83 | every row appears on page `i / per_page + 1` at position `i % per_page` |
| Common.PyNumber | backend/utils/token_utils.py:27 | the number Python's arithmetic sees: an int as it is, a bool as 0 or 1, and nothing else; it is also what `amount_due / 100` and `datetime.fromtimestamp` accept |
| TokenUtils.CheckTokenExpiration | backend/utils/token_utils.py:11-29 | with a numeric exp (0 when absent), time_until_expiry is exp minus now, and the token is expiring exactly when exp is at most now plus the buffer |
| TokenUtils.MissingExpIsExpiring | backend/utils/token_utils.py:25 | a token without exp counts as expired at time 0, expiring at every non-negative time with -now seconds left |
| TokenUtils.ExpiringPersists | backend/utils/token_utils.py:27-29 | once expiring, a token stays expiring at every later time |
| TokenUtils.ShouldRotateRefreshToken | backend/utils/token_utils.py:31-57 | a non-numeric exp raises; fewer seconds left than the threshold rotates whatever the other claims are; any answer implies a numeric exp; with at least the threshold left, a refresh_count that is not a number raises |
| TokenUtils.RotationConditions | backend/utils/token_utils.py:45-57 | with numeric claims rotation is due exactly when one of the three conditions holds, a missing refresh_count counting as 0 |
| TokenUtils.RotationPersists | backend/utils/token_utils.py:53-57 | a due rotation stays due as time passes |
| TokenUtils.TokenRecord | backend/utils/token_utils.py:92-102 | the row is built exactly when exp is numeric and `int(sub)` succeeds; it holds the jti, the expiry, the integer user id and the type, 'access' by default |
| TokenUtils.StringSubjectAccepted | backend/utils/token_utils.py:94 | a subject written as the text of an integer identity gives that user id |
| TokenUtils.NumericSubjectAccepted | backend/utils/token_utils.py:94 | any subject text `int()` accepts gives the number it denotes |
| TokenUtils.Expired | backend/utils/token_utils.py:156 | exactly the rows that expired before now |
| TokenUtils.Unexpired | backend/utils/token_utils.py:156 | exactly the rows that expire at now or later |
| TokenUtils.CleanupPartition | backend/utils/token_utils.py:156 | every row is either deleted or kept, never both |
| TokenUtils.InvalidTokenTable.InvalidateToken | backend/utils/token_utils.py:82-106 | the built row is appended and returned; when building it raises, the table is unchanged |
| TokenUtils.InvalidTokenTable.CreateRotatedRefreshToken | backend/utils/token_utils.py:108-135 | the new claims carry the old refresh_count (0 when absent) plus one, type 'refresh' and the identity, and the old token's row is appended; a failure of either step leaves the table as it was |
| TokenUtils.InvalidTokenTable.CleanupExpiredTokens | backend/utils/token_utils.py:149-163 | exactly the expired rows are deleted and counted; a database failure rolls back and returns 0 |
| AppUserController.BlacklistToken | backend/app/user_controller.py:18-46 | the token's row is added, with the user id as text, exactly when its jti is not yet blacklisted, and returns True; a duplicate jti adds nothing and returns False; afterwards the jti is blacklisted either way |
| AppUserController.UserWideJti | backend/app/user_controller.py:57 | the user-wide entry's jti starts with `user_logout_all_<user id>_` |
| AppUserController.BlacklistAllUserTokens | backend/app/user_controller.py:49-80 | one 'all_user_tokens' row that expires an hour from now is added; until then every token of that user is revoked whatever its jti; a clashing jti adds nothing and returns False |
| AppUserController.IsTokenBlacklisted | backend/app/user_controller.py:83-118 | blacklisted exactly when some row has the jti, or a user id is given and that user has a user-wide row expiring after now; a database error answers "not blacklisted" |
| AppUserController.UserWideEntryExpires | backend/app/user_controller.py:104-108 | once every matching row has expired, a token whose jti is not listed is no longer revoked |
| AppUserController.CleanupKeepsUserWide | backend/app/user_controller.py:121-135 | cleaning up at now never changes whether a user-wide entry revokes at now or later |
| AppUserController.SubjectOf | backend/app/user_controller.py:159-164 | a truthy string subject is converted with int(), None replacing one int() refuses; any other subject is passed on as it is |
| AppUserController.CheckIfTokenRevoked | backend/app/user_controller.py:147-172 | a payload without a truthy jti is blocked; otherwise the blacklist decides, on the jti's text and the converted subject |
| AppUserController.NonIntegerSubjectOnlyJti | backend/app/user_controller.py:159-167 | with a subject int() refuses only the jti lookup decides |
| AppUserController.Sanitized | backend/app/user_controller.py:205 | a request value becomes text unless it is None |
| AppUserController.PasswordCheck | backend/app/user_controller.py:217-221 | no stored hash gives False before the password is looked at; with a hash a string password is checked and any other raises |
| AppUserController.LoginUser | backend/app/user_controller.py:193-229 | the length in the log line raises for a truthy password without one; both fields are required; an unknown email and a wrong password give the same "Invalid email or password"; a success is a user of the table with the sanitised email and the password |
| AppUserController.LoginSucceedsIff | backend/app/user_controller.py:205-226 | with unique emails login succeeds exactly when some user has the sanitised email and the password |
| AppUserController.LoginByLookup | backend/app/user_controller.py:208-223 | login succeeds exactly when the user the email lookup finds has the password |
| AppUserController.RegisterRefusal | backend/app/user_controller.py:236-257 | the checks in their order (required fields, email format, email free, password of 8 or more), each refusal exactly when the earlier ones pass and it fails, and no refusal exactly when all pass |
| AppUserController.RegisterUser | backend/app/user_controller.py:232-274 | a refusal adds nothing; otherwise one new user is appended, with the email and username given, not an admin, role 'user', and the password's hash. The v2 copy, backend_v2/controllers/user_controller.py lines 56-98, is the same code. |
| AppUserController.CreateUser | backend/app/user_controller.py:259-268 | the new user is appended with the given fields, is not an admin and checks against the password |
| AppUserController.Change | backend/app/user_controller.py:289-299 | a text column changes only for a present, truthy, non-empty sanitised value that differs from the current one |
| AppUserController.UpdateDataError | backend/app/user_controller.py:282-306 | the refusals in their order: an unknown user, then a changed email that is malformed or used by another user; with no email change there is no refusal for a known user |
| AppUserController.UpdateUserData | backend/app/user_controller.py:277-318 | a refusal changes nothing and commits nothing; on success username and email take their changed values, every other column and every other user stay, the reply is the user's dictionary, and the session is committed exactly when something changed. The v2 copy, lines 101-142 of backend_v2/controllers/user_controller.py, is the same code. |
| AppUserController.ApplyProfileChange | backend/app/user_controller.py:289-299 | only the username and the email are written, where a change is given |
| AppUserController.ChangePassword | backend/app/user_controller.py:321-346 | an unknown user, then a wrong current password, then a new password shorter than 8 are refused in that order, changing nothing; on success only the hash changes and the new password checks. The v2 copy, lines 145-170 of backend_v2/controllers/user_controller.py, is the same code. |
| V2UserController.LoginUser | backend_v2/controllers/user_controller.py:29-53 | both fields required; an unknown email gives "Invalid email or password"; a success is a user of the table with the sanitised email and the password |
| V2UserController.SameRefusal | backend_v2/controllers/user_controller.py:41-48 | for a string password login either succeeds or gives the one "Invalid email or password", and succeeds exactly when the looked-up user has the password |
| V2UserController.LoginCopiesAgree | backend_v2/controllers/user_controller.py:29-53 | this copy and the one in backend/app answer alike except for a truthy password without a length, which the other copy's log line turns into an error and this one never lets in |
| V2UserController.UpdateUserAvatar | backend_v2/controllers/user_controller.py:173-190 | an unknown id gives "User not found" and changes nothing; otherwise only that user's avatar_url changes and the reply is the message |
| LegacyUserController.ToDict | backend/models/user.py:32-45 | the dictionary has exactly id, fullName, email, isAdmin, level and stats, with the row's id, name, email and admin flag |
| LegacyUserController.IndexOfId | backend/controllers/user_controller.py:110 | `User.query.get`: a found position holds that id; none means no row has it |
| LegacyUserController.IndexOfEmail | backend/controllers/user_controller.py:39 | `filter_by(email).first()`: the first row whose email reads as the same SQLite text, or none when no row has it |
| LegacyUserController.NumberEmailIsText | backend/models/user.py:21 | an email stored from the int n is found by the text of n, and a user with that text cannot be stored beside it, as the unique TEXT column compares them |
| LegacyUserController.FieldCheck | backend/controllers/user_controller.py:35-36 | a field passes exactly when it is present and not blank; a missing field is reported as required |
| LegacyUserController.FieldRefusal | backend/controllers/user_controller.py:33-36 | the loop passes exactly when fullName, email and password are all filled |
| LegacyUserController.FirstMissingReported | backend/controllers/user_controller.py:33-36 | the first missing or blank field of the three is the one reported, and nothing is stored |
| LegacyUserController.TakenEmailRefused | backend/controllers/user_controller.py:38-40 | with the fields filled, a taken email is refused and nothing is stored |
| LegacyUserController.RegisterCreatesUser | backend/controllers/user_controller.py:42-56 | a success appends one row with the given name and email, the hash of the password, no admin flag, a fresh id and an unused email, and returns its dictionary |
| LegacyUserController.RegisterAlwaysFailsAsWritten | backend/controllers/user_controller.py:50 | with the model class as shipped, every registration is refused, and one that passes the checks fails with "Registration failed" |
| LegacyUserController.RegisterCounterexample | backend/controllers/user_controller.py:42-60 | one registration the intended class accepts and the shipped class refuses |
| LegacyUserController.Login | backend/controllers/user_controller.py:63-80 | a login succeeds only with the password methods in place and a string password |
| LegacyUserController.LoginSameRefusal | backend/controllers/user_controller.py:66-77 | with the methods in place, the login succeeds exactly when the first user with the email has a hash matching the password, returns that user's dictionary, and refuses unknown emails and wrong passwords with one message |
| LegacyUserController.LoginExampleAccepted | backend/controllers/user_controller.py:71-77 | the stored password logs in with the intended class |
| LegacyUserController.LoginCounterexample | backend/controllers/user_controller.py:74-80 | with the shipped class the same login fails with "Login failed", and a known email is refused differently from an unknown one |
| LegacyUserController.NewHash | backend/controllers/user_controller.py:115-116 | without a 'password' key the hash is kept; with one it is the digest of that string, and only when the methods exist |
| LegacyUserController.FindTarget | backend/controllers/user_controller.py:108-125 | a truthy id that names a row is found first, an id given as decimal text being compared as the integer that SQLite's INTEGER affinity makes of it; otherwise a truthy email's first row; the found position is in the table |
| LegacyUserController.TextIdFindsRow | backend/controllers/user_controller.py:108-111 | an id sent as the text of a stored row's id finds that row, as the integer would |
| LegacyUserController.ApplyDispatch | backend/controllers/user_controller.py:106-147 | an entry updates a found row, else creates one when it has fullName and email, else is skipped; without a password key a queryable entry never raises |
| LegacyUserController.UpdateKeepsUnspecified | backend/controllers/user_controller.py:111-132 | an update changes only the found row, and in it only the fields the entry gives; the email only when found by id; the id never |
| LegacyUserController.CreateAppendsOne | backend/controllers/user_controller.py:134-147 | a creation appends one row with a fresh id, the entry's name and email, its admin flag or False, and a hash exactly when a password was given |
| LegacyUserController.ApplyKeepsIds | backend/controllers/user_controller.py:106-147 | one entry keeps the ids distinct and in place and adds at most one |
| LegacyUserController.RunKeepsIds | backend/controllers/user_controller.py:106-147 | over the loop the old rows keep their ids and positions, each creation adds one row, and ids stay distinct |
| LegacyUserController.CountsAddUp | backend/controllers/user_controller.py:103-147 | the two counters add up to the entries that changed something, and with none the rows are unchanged |
| LegacyUserController.UpdateUsersReport | backend/controllers/user_controller.py:100-160 | the reply's counts are those of the loop, a failure rolls back to the rows before, and nothing changes when both counts are zero |
| LegacyUserController.PasswordEntryCounterexample | backend/controllers/user_controller.py:115-116 | an entry with a password updates the hash with the intended class, and fails the whole request with the shipped class |
| LegacyUserController.LegacyUserTable.RegisterUser | backend/controllers/user_controller.py:29-60 | the reply and the new table are those of the registration outcome, and the table stays committable |
| LegacyUserController.LegacyUserTable.UpdateUsers | backend/controllers/user_controller.py:100-160 | the reply and the new table are those of the update outcome, and the table stays committable |
| LegacyQuizController.AnswersCheck | backend/controllers/quiz_controller.py:113-128 | the answer loop never raises, and its refusals are those of an answer or of a missing correct answer |
| LegacyQuizController.QuestionCheck | backend/controllers/quiz_controller.py:100-128 | a question's checks never raise and never report a missing field |
| LegacyQuizController.QuestionsCheck | backend/controllers/quiz_controller.py:100-128 | the question loop never raises and never reports a missing field |
| LegacyQuizController.AnswersAccepted | backend/controllers/quiz_controller.py:113-128 | the answer loop passes exactly when every answer is a dict with text and a bool flag and one of them is correct |
| LegacyQuizController.QuestionAccepted | backend/controllers/quiz_controller.py:100-128 | a question passes exactly when it is valid |
| LegacyQuizController.FirstBadQuestion | backend/controllers/quiz_controller.py:100 | the first failing question: all before it pass and it does not |
| LegacyQuizController.FirstBadQuestionDecides | backend/controllers/quiz_controller.py:100-128 | the loop answers with the first failing question's refusal and passes exactly when every question is valid |
| LegacyQuizController.TimeLimitCheck | backend/controllers/quiz_controller.py:91-94 | a time limit passes exactly when it is None or an int (a bool included) that is not negative |
| LegacyQuizController.RequiredCheck | backend/controllers/quiz_controller.py:63-65 | a required field passes exactly when present and truthy, and is otherwise reported missing |
| LegacyQuizController.RequiredFieldsFirst | backend/controllers/quiz_controller.py:62-65 | title, category, difficulty and questions are checked first, in that order, and the first absent one is named |
| LegacyQuizController.CreateAccepted | backend/controllers/quiz_controller.py:59-128 | an accepted create has all four fields, a title of 1 to 100 characters, a description of at most 500, a valid time limit and a non-empty list of valid questions |
| LegacyQuizController.FirstFailing | backend/controllers/quiz_controller.py:164-234 | the first update stage that fails: every stage before it passes and it does not |
| LegacyQuizController.AbsentKeysKeepValues | backend/controllers/quiz_controller.py:164-237 | a column whose key is absent keeps its value at every stage; after all stages the given title, description and time limit are stored |
| LegacyQuizController.UpdateAccepted | backend/controllers/quiz_controller.py:164-234 | an update that passes has checked the title's length, the description (None allowed), the time limit (None allowed) and every question |
| LegacyQuizController.ListQuizzes | backend/controllers/quiz_controller.py:19-41 | the listing holds only quizzes of the table and no more of them |
| LegacyQuizController.ListingIsFilter | backend/controllers/quiz_controller.py:22-38 | a quiz is listed exactly when it is in the table and passes the category, difficulty and search filters |
| LegacyQuizController.ListingKeepsOrder | backend/controllers/quiz_controller.py:22-38 | the listing keeps the table's order |
| LegacyQuizController.ToDicts | backend/controllers/quiz_controller.py:41-44 | one dictionary per listed quiz, in order, or the database error when some quiz's questions cannot be read back |
| LegacyQuizController.IndexOfQuiz | backend/controllers/quiz_controller.py:160 | `Quiz.query.get`: a found position holds the id; none means no quiz has it |
| LegacyQuizController.QuizTable.CreateQuiz | backend/controllers/quiz_controller.py:59-154 | a refusal is a 400 with its message and a failed write a 500, neither adding anything; otherwise one fresh quiz built from the request is appended and returned with 201 |
| LegacyQuizController.QuizTable.UpdateQuiz | backend/controllers/quiz_controller.py:157-243 | an unknown id is a 404 that changes nothing; otherwise only the found quiz changes, its id, creation time and owner never, as the stage-by-stage update effect says |
| LegacyQuizController.AssignStages | backend/controllers/quiz_controller.py:165-235 | the quiz's columns become those the update assigns for the keys present in the data, with its id, owner and creation time kept |
| LegacyQuizController.QuizTable.DeleteQuiz | backend/controllers/quiz_controller.py:246-260 | it succeeds exactly when a quiz has the id, which is then removed with the others kept in order; otherwise "Quiz not found" and nothing changes |
| LegacyQuizController.RemovalKeepsOthers | backend/controllers/quiz_controller.py:252-256 | removing one quiz keeps every other quiz, and the ids stay distinct |
| LegacyQuizController.NewQuiz | backend/controllers/quiz_controller.py:132-146 | the new quiz carries the request's columns and its questions, and reads back |
| LegacyQuizController.UpdatedQuestionsReadable | backend/controllers/quiz_controller.py:236-239 | questions stored by an update always read back |
| LegacyQuizController.Update | backend/controllers/quiz_controller.py:164-243 | the found quiz changes as the update effect says, keeping its id, creation time and owner |
| LegacyQuizModel.Coerce | backend/models/quiz.py:47-49 | a converted question has an int or None correctAnswer, the same keys and every other value unchanged; it converts exactly when int() accepts the value |
| LegacyQuizModel.CoerceIdempotent | backend/models/quiz.py:37-39 | converting a converted question changes nothing |
| LegacyQuizModel.CoerceAll | backend/models/quiz.py:47-49 | the loop converts exactly when every question converts, and then element by element |
| LegacyQuizModel.CoerceAllIdempotent | backend/models/quiz.py:31-51 | converting a converted list changes nothing: the getter returns what the setter stored |
| LegacyQuizModel.CoercedAnswersAreInts | backend/models/quiz.py:37-39 | after conversion every correctAnswer is None or an int and the questions keep their keys |
| LegacyQuizModel.FailIndex | backend/models/quiz.py:47 | the first question that cannot be converted: all before it convert and it does not |
| LegacyQuizModel.Quiz.constructor | backend/models/quiz.py:20-29 | a new quiz has the given columns, no questions and no dates |
| LegacyQuizModel.Quiz.Questions | backend/models/quiz.py:31-41 | the getter returns the stored list converted, an empty list for an empty column, with every correctAnswer an int or None |
| LegacyQuizModel.Quiz.SetQuestions | backend/models/quiz.py:43-51 | it stores exactly when every question converts, and converts the caller's list in place; when int() raises the column is kept and the caller's list is converted up to the failing question |
| LegacyQuizModel.ToDictRenames | backend/models/quiz.py:56-69 | to_dict has the ten keys with time_limit, created_at, last_modified and user_id renamed, and fails exactly when the getter does |
| LegacyQuizModel.EmptyColumnReadsEmpty | backend/models/quiz.py:34-41 | an empty column reads as no questions |
| SqlLike.PercentMatchesAll | backend/controllers/quiz_controller.py:32-38 | `%` matches any text |
| SqlLike.PrefixLike | backend/controllers/quiz_controller.py:32-38 | a wildcard-free pattern then `%` matches exactly the texts starting with it, ignoring ASCII case |
| SqlLike.LeadingPercent | backend/controllers/quiz_controller.py:32-38 | a leading `%` lets the rest match from any position |
| SqlLike.SearchAt | backend/controllers/quiz_controller.py:32-38 | at a position the rest of `%search%` matches exactly where the lowered search occurs |
| SqlLike.SearchIsContains | backend/controllers/quiz_controller.py:32-38 | for a search without `%` or `_`, `ilike('%search%')` matches exactly the texts containing the search, ignoring ASCII case |
| SqlLike.UnderscoreMatchesAnyText | backend/controllers/quiz_controller.py:32-38 | a search of "_" matches every non-empty text |
| AppUserModel.Digest | backend/app/models/user.py:24-26 | every generated hash starts with the method prefix |
| AppUserModel.DigestDeterminesPassword | backend/app/models/user.py:24-32 | a stored hash accepts exactly the password it was made from |
| AppUserModel.User.constructor | backend/app/models/user.py:11-22 | a new row has the column defaults: role 'user', not an admin, no password, no avatar, no google id, no premium access, created now |
| AppUserModel.User.SetPassword | backend/app/models/user.py:24-26 | only the hash changes, and afterwards the password checks |
| AppUserModel.User.CheckPassword | backend/app/models/user.py:28-32 | false without a stored hash; otherwise true exactly for the password the hash was made from |
| AppUserModel.User.HasRole | backend/app/models/user.py:34-36 | true exactly for the row's role |
| AppUserModel.User.IsAdminUser | backend/app/models/user.py:38-40 | true exactly when the role is 'admin' or the flag is set |
| AppUserModel.User.PromoteToAdmin | backend/app/models/user.py:42-45 | role and flag both say admin, so the user is an admin by either test; nothing else changes |
| AppUserModel.User.DemoteToUser | backend/app/models/user.py:47-50 | role 'user' and flag false, so the user is an admin by neither test; nothing else changes |
| AppUserModel.User.ToDictKeys | backend/app/models/user.py:52-71 | the twelve keys to_dict always gives |
| AppUserModel.User.ToDictValues | backend/app/models/user.py:52-71 | the username doubles as fullName, an empty avatar falls back to the default, is_admin is the admin test, and the level and stats are the constant placeholders |
| AppUserModel.UserTable.Get | backend/app/models/user.py:11 | `query.get`: a found user has the id; none means no user has it |
| AppUserModel.UserTable.ByEmail | backend/app/models/user.py:13 | `filter_by(email).first()`: a found user has the email; none means no user has it |
| AppUserModel.UserTable.ByUsername | backend/app/models/user.py:12 | `filter_by(username).first()`: a found user has the name; none means no user has it |
| AppUserModel.UserTable.ByGoogleId | backend/app/models/user.py:19 | `filter_by(google_id).first()`: a found user has the google id; none means no user has it |
| AppUserModel.UserTable.NextId | backend/app/models/user.py:11 | the next primary key is above every id in the table |
| AppUserModel.UserTable.GrantPremium | backend/app/models/user.py:21-22 | premium access on, premium_since stamped unless already set, no other column changed, the table's uniqueness kept |
| AppUserModel.UserTable.SetUsername | backend/app/models/user.py:12 | only the username changes |
| AppUserModel.UserTable.SetPasswordOf | backend/app/models/user.py:24-26 | only the hash changes, to one that accepts the password |
| AppUserModel.UserTable.SetEmail | backend/app/models/user.py:13 | only the email changes, to one no user had, so emails stay unique |
| AppUserModel.UserTable.RevokePremium | backend/app/models/user.py:21-22 | premium access off; premium_since and every other column stay |
| AppUserModel.UserTable.Promote | backend/app/models/user.py:42-45 | promote_to_admin on a row of the table, which stays valid |
| AppUserModel.UserTable.Demote | backend/app/models/user.py:47-50 | demote_to_user on a row of the table, which stays valid |
| AppUserModel.UserTable.StartPremium | backend/app/models/user.py:21-22 | premium access on from now, premium_since overwritten; nothing else changes |
| AppUserModel.UserTable.SetRole | backend/app/models/user.py:17 | only the role changes; the is_admin flag stays |
| AppUserModel.UserTable.SetAvatar | backend/app/models/user.py:15 | only avatar_url changes |
| AppUserModel.UserTable.SetPremiumFlag | backend/app/models/user.py:21 | only has_premium_access changes; premium_since stays |
| AppUserModel.UserTable.Insert | backend/app/models/user.py:11-22 | one fresh row appended with the next id, the name and email, the column defaults; the table stays valid |
| AppUserModel.EmailsUnique | backend/app/models/user.py:13 | in a valid table two users with one email are the same user |
| AppUserModel.IdsUnique | backend/app/models/user.py:11 | in a valid table two users with one id are the same user |
| AppUserModel.GoogleIdsUnique | backend/app/models/user.py:19 | in a valid table two users with one google id are the same user |
| AppBlacklistedToken.JtiOfRepr | backend/app/models/blacklisted_token.py:26-27 | a jti read back from text means the text is the repr of that jti |
| AppBlacklistedToken.ReprRoundTrip | backend/app/models/blacklisted_token.py:26-27 | the repr shows the jti, which reads back from it |
| AppBlacklistedToken.Expired | backend/app/models/blacklisted_token.py:37-39 | a row is selected exactly when it is in the table and expires before now |
| AppBlacklistedToken.Unexpired | backend/app/models/blacklisted_token.py:35-45 | every row left after clean-up was in the table and does not expire before now |
| AppBlacklistedToken.UnexpiredKept | backend/app/models/blacklisted_token.py:37-39 | clean-up keeps every row that does not expire before now, one expiring exactly now included |
| AppBlacklistedToken.Without | backend/app/models/blacklisted_token.py:41-42 | deleting rows never adds one |
| AppBlacklistedToken.WithoutExpired | backend/app/models/blacklisted_token.py:41-44 | deleting the expired rows leaves exactly the unexpired ones, in order |
| AppBlacklistedToken.ExpiredSplit | backend/app/models/blacklisted_token.py:37-45 | the removed and the kept rows add up to the table |
| AppBlacklistedToken.HasJti | backend/app/models/blacklisted_token.py:30-32 | true exactly when some row has the jti |
| AppBlacklistedToken.HasUserWideEntry | backend/app/user_controller.py:103-108 | true exactly when an unexpired 'all_user_tokens' row exists for the user id |
| AppBlacklistedToken.UnexpiredUnique | backend/app/models/blacklisted_token.py:13-14 | clean-up keeps ids and jtis unique |
| AppBlacklistedToken.BlacklistTable.IsBlacklisted | backend/app/models/blacklisted_token.py:29-32 | `is_blacklisted` is true exactly when some row has the jti |
| AppBlacklistedToken.BlacklistTable.NextId | backend/app/models/blacklisted_token.py:13 | the next primary key is above every id |
| AppBlacklistedToken.BlacklistTable.Add | backend/app/models/blacklisted_token.py:14-24 | the row is added exactly when the jti is new (the unique column refuses a repeat), and afterwards the jti is blacklisted either way |
| AppBlacklistedToken.BlacklistTable.CleanupExpiredTokens | backend/app/models/blacklisted_token.py:34-45 | the table becomes its unexpired rows, and the count returned is the number of expired rows, the difference in size |
| AppBlacklistedToken.CleanedUp | backend/app/models/blacklisted_token.py:37-45 | deleting the selected rows leaves the unexpired ones with unique keys, and the sizes add up |
| AppBlacklistedToken.WithoutTwice | backend/app/models/blacklisted_token.py:41-42 | deleting one more row after a set is deleting the union |
| AppOfflinePayment.OfflinePayment.constructor | backend/app/models/offline_payment.py:11-26 | a new row has the given columns, currency 'PLN', no notes, created now and not approved |
| AppOfflinePayment.OfflinePayment.ApprovePayment | backend/app/models/offline_payment.py:28-37 | the payment becomes approved now whatever its status, a truthy note replaces the stored one, and the payer gets premium since now with nothing else of theirs changed; a missing payer raises after the payment's columns are set |
| AppOfflinePayment.OfflinePayment.RejectPayment | backend/app/models/offline_payment.py:39-43 | the payment becomes rejected whatever its status, a truthy note replaces the stored one, and nothing else changes |
| AppOfflinePayment.OfflinePayment.ToDict | backend/app/models/offline_payment.py:45-62 | the dictionary has exactly the fifteen keys |
| AppOfflinePayment.ToDictColumns | backend/app/models/offline_payment.py:45-62 | the payer's email and name and the administrator's name are None exactly without the relationship; status, notes, amount and approval show the row |
| AppOfflinePayment.OfflinePaymentTable.Get | backend/app/models/offline_payment.py:11 | `query.get`: a found payment has the id; none means no payment has it |
| AppOfflinePayment.OfflinePaymentTable.PendingOf | backend/app/models/offline_payment.py:12-17 | the first pending payment of the user, or none when the user has no pending payment |
| AppOfflinePayment.OfflinePaymentTable.NextId | backend/app/models/offline_payment.py:11 | the next primary key is above every id |
| AppOfflinePayment.OfflinePaymentTable.Add | backend/app/models/offline_payment.py:11-22 | one fresh row appended with the next id, the given columns and the defaults |
| AppPayment.StripeSubscription.constructor | backend/app/models/payment.py:20-29 | a new subscription has the given columns, created now, not canceled, with no failed payments |
| AppPayment.Payment.constructor | backend/app/models/payment.py:8-11 | a new payment has the given intent, amount and status |
| AppPayment.SubscriptionTable.ByUserId | backend/app/models/payment.py:21 | the first subscription of the user, or none when the user has none |
| AppPayment.SubscriptionTable.ByStripeId | backend/app/models/payment.py:22 | the subscription with the Stripe id as bound, a null id matching a row without one (`IS NULL`), or none when no row has it |
| AppPayment.SubscriptionTable.NextId | backend/app/models/payment.py:20 | the next primary key is above every id |
| AppPayment.PaymentTable.ByIntent | backend/app/models/payment.py:9 | the payment with the intent id, or none when no row has it |
| AppPayment.PaymentTable.NextId | backend/app/models/payment.py:8 | the next primary key is above every id |
| AppPayment.PaymentTable.Add | backend/app/models/payment.py:8-11 | one fresh row for a new intent appended with the next id; the intent stays unique |
| AppPayment.PaymentTable.SetStatus | backend/app/models/payment.py:11 | only the row's status changes |
| AppPayment.SubsOf | backend/app/models/payment.py:20-23 | two rows of a valid subscription table differ in id and unique columns |
| AppPayment.PaymentsOf | backend/app/models/payment.py:8-9 | two rows of a valid payment table differ in id and intent |
| AppAdminController.PromoteUserToAdmin | backend/app/admin_controller.py:96-115 | a missing user and a user already in the 'admin' role are refused with nothing changed; otherwise exactly that user becomes an admin by role and flag, the reply naming them |
| AppAdminController.DemoteAdminToUser | backend/app/admin_controller.py:118-145 | a missing user, a role other than 'admin' and self-demotion are refused with nothing changed, and no acting administrator raises; otherwise exactly that user loses both admin marks |
| AppAdminController.DemotedUserIsNotAdmin | backend/app/admin_controller.py:127-128 | a demoted user is no admin, so demoting again is refused |
| AppAdminController.PaymentGuard | backend/app/admin_controller.py:220-229 | a missing payment, a payment already in the target status and no acting administrator are refused in that order; otherwise the payment and the administrator |
| AppAdminController.ApproveOfflinePayment | backend/app/admin_controller.py:216-252 | a refused guard changes nothing; otherwise exactly that payment becomes approved now by the acting administrator, its notes untouched, and its payer, when found, gets premium from now |
| AppAdminController.ApplyApproval | backend/app/admin_controller.py:228-236 | the payment's approval columns and the payer's premium columns are written, nothing else |
| AppAdminController.GrantPayer | backend/app/admin_controller.py:233-236 | a found payer gets premium from now; a missing one changes nothing |
| AppAdminController.MarkApproved | backend/app/admin_controller.py:228-230 | only status, approved_at and admin_id of the payment change |
| AppAdminController.RejectOfflinePayment | backend/app/admin_controller.py:254-283 | a refused guard changes nothing; otherwise exactly that payment becomes rejected by the acting administrator, keeping its approval date and notes |
| AppAdminController.InsertByDate | backend/app/admin_controller.py:161 | the insertion holds only the new row and the old ones |
| AppAdminController.InsertIsPermutation | backend/app/admin_controller.py:161 | inserting adds exactly the one row |
| AppAdminController.InsertKeepsNewestFirst | backend/app/admin_controller.py:161 | inserting into a newest-first list keeps it newest first |
| AppAdminController.SortNewestFirst | backend/app/admin_controller.py:161 | the sorted rows come from the table |
| AppAdminController.SortIsPermutation | backend/app/admin_controller.py:161 | sorting keeps exactly the rows |
| AppAdminController.SortIsNewestFirst | backend/app/admin_controller.py:161 | the rows come out by created_at, newest first |
| AppAdminController.WithStatus | backend/app/admin_controller.py:157-158 | exactly the rows of the status, each as often as in the table |
| AppAdminController.ListedOfflinePaymentsAre | backend/app/admin_controller.py:147-161 | the listing is newest first and holds exactly the rows of the status for one of the three statuses and every row otherwise |
| AppAdminController.Present | backend/app/admin_controller.py:297-303 | exactly the allowed fields that the body has and the user model defines |
| AppAdminController.Conflict | backend/app/admin_controller.py:307-316 | a new email or username is refused exactly when the first user holding it has another id; no other field is ever refused |
| AppAdminController.FullNameIsNeverWritten | backend/app/admin_controller.py:297-303 | fullName is allowed but never written, so a body with only fullName makes no change |
| AppAdminController.UpdateUser | backend/app/admin_controller.py:285-335 | a missing user, an empty body and the first uniqueness refusal are errors with nothing changed; with no field to write "No changes made"; a value its column cannot take (a list or object, or a premium flag other than a bool, 0 or 1) fails the commit and changes nothing; otherwise exactly the present fields of that user are written, an int or bool in a text column as its SQLite text and 0 or 1 in the flag as a bool, and the reply lists them |
| AppAdminController.FinishUpdate | backend/app/admin_controller.py:321-331 | after a clean loop: "No changes made" without fields, a failed commit for a value of the wrong column type, the written fields otherwise |
| AppAdminController.ScanFields | backend/app/admin_controller.py:300-318 | the loop returns the first refusal in field order, or none with the fields it will write |
| AppAdminController.NoFirstConflict | backend/app/admin_controller.py:300-318 | no first refusal means no present field is refused |
| AppAdminController.CheckedEmailIsFree | backend/app/admin_controller.py:307-310 | a changed email that passed the check belongs to no user, so emails stay unique |
| AppAdminController.WriteFields | backend/app/admin_controller.py:318 | the `setattr` calls change exactly the username, email, role and premium flag the body gives |
| AppAdminMiddleware.FirstLookup | backend/app/admin_middleware.py:19-26 | an int, or a digit string shorter than 10 characters, is a primary key; any other string a google_id; any other value cannot be queried |
| AppAdminMiddleware.ShortDigitIdentityIsItsValue | backend/app/admin_middleware.py:20-21 | a short digit string is looked up by the value of its digits |
| AppAdminMiddleware.ResolveIdentity | backend/app/admin_middleware.py:19-30 | an int by primary key, another string by google_id, and a short digit string found by primary key or else by google_id; an unqueryable identity raises |
| AppAdminMiddleware.LongDigitIdentityIsGoogleId | backend/app/admin_middleware.py:20-26 | a digit string of 10 or more characters is found only as a google_id |
| AppAdminMiddleware.Authenticate | backend/app/admin_middleware.py:14-33 | no identity is 401 "Authentication required", a failed query 401 "Authentication failed", an unknown user 404; it passes exactly with a found user |
| AppAdminMiddleware.AdminRequired | backend/app/admin_middleware.py:9-42 | passes exactly an authenticated user for whom is_admin_user holds; another user is 403 "Admin access required" |
| AppAdminMiddleware.ModeratorOrAdminRequired | backend/app/admin_middleware.py:44-77 | passes exactly an authenticated user with role 'admin' or 'moderator'; another user is 403 |
| AppAdminMiddleware.AdminFlagIsNotModerator | backend/app/admin_middleware.py:35-71 | a user with the admin flag and role 'user' passes admin_required and is refused by moderator_or_admin_required |
| AppAdminMiddleware.CurrentAdminUser | backend/app/admin_middleware.py:79-103 | a returned user is in the table and is an admin |
| AppAdminMiddleware.CurrentAdminMatchesAdminRequired | backend/app/admin_middleware.py:79-103 | the current admin is returned exactly when admin_required lets the identity through, and is the same user |
| AppRoutes.UserMeLookup | backend/app/routes.py:254-297 | the two passes find what the identity's field choice finds, and a found user is in the table |
| AppRoutes.SmallIdNeverGoogleId | backend/app/routes.py:269-291 | a numeric identity below 1 000 000 000 is only looked up by id, also on the fallback pass |
| AppRoutes.IssuedIdentityFindsUser | backend/app/routes.py:269-279 | the identity a password login issues finds that user when the id is below the threshold |
| AppRoutes.GoogleIdentityFindsUser | backend/app/routes.py:269-279 | the identity a Google login issues finds that user unless the google id reads as a small number |
| AppRoutes.UserMe | backend/app/routes.py:252-299 | 200 with the user's dictionary exactly when the lookup finds a user, otherwise 404 "User not found" |
| AppRoutes.UserPut | backend/app/routes.py:216-250 | an empty identity 401, a non-integer one 401, another user's id 403, an empty body 400, a refused update 400, all changing nothing; otherwise 200 with the own user's new name and email and nothing else changed |
| AppRoutes.Logout | backend/app/routes.py:301-365 | always 200 "logged out"; with a truthy logout_all the user-wide entry is written once and revokes the user's tokens for its hour; otherwise a token with jti and exp is blacklisted until exp read as the server's local time; a non-integer identity gives the warning reply and writes nothing |
| AppRoutes.FirstMissing | backend/app/routes.py:396-399 | the first required field that is absent or falsy, or none exactly when all are present and truthy |
| AppRoutes.MissingField | backend/app/routes.py:396-399 | the loop finds the first missing field of amount, paymentMethod and description |
| AppRoutes.RequiredPresent | backend/app/routes.py:396-399 | with no missing field all three are present and truthy |
| AppRoutes.NoPendingCountsZero | backend/app/routes.py:385-389 | a user with no pending row has a pending count of zero |
| AppRoutes.OfflineRequestCheck | backend/app/routes.py:369-376 | an identity that is not an integer fails with 500, an unknown user 404, then the user's own checks |
| AppRoutes.RequestCheckFor | backend/app/routes.py:378-401 | premium access, a pending request, an empty body, a missing field and a failing amount are refused in that order; it passes exactly when none applies, with all three fields truthy |
| AppRoutes.RequestOfflinePayment | backend/app/routes.py:367-423 | a refusal is its status and message with nothing added; an amount that `float()` rejects is the 500 with nothing added; a paymentMethod, description or referenceNumber that cannot be bound (a list or object) is the 500 of the failed commit with nothing added; otherwise one pending row with admin_id 1, the amount `float()` reads and the text fields as SQLite stores them is filed, answered with 201 and its id, and the user then has exactly one pending request |
| AppRoutes.AmountDecides | backend/app/routes.py:404 | for an otherwise acceptable request, an integer amount files the request while a list or object amount makes `float()` raise and gives the 500 |
| AppRoutes.FiledRow | backend/app/routes.py:402-420 | the appended pending row with the request's fields as their columns store them is the filing the handler promises |
| AppRoutes.FileRequest | backend/app/routes.py:402-413 | one fresh pending row for the user with admin_id 1 and the request's fields, leaving the user with one pending request |
| AppRoutes.StoredText | backend/app/models/offline_payment.py:15-19 | what a nullable text column of the offline payment reads back: null and text as they are, an int as its decimal text, a bool as '1' or '0'; a list or object cannot be bound |
| AppModelHelpers.UpsertSubscription | backend/app/models/helpers.py:14-31 | the user's first subscription is updated, or a fresh row appended, as 'active' for 30 days from now with the session's Stripe ids; a Stripe id another row holds makes the commit fail and nothing changes |
| AppModelHelpers.AppendRow | backend/app/models/helpers.py:16-25 | one fresh 'active' row for the user, 30 days from now, with the given Stripe ids |
| AppModelHelpers.UpdateRow | backend/app/models/helpers.py:26-31 | the row becomes 'active' for 30 days from now with the given ids; creation, cancellation and failure count stay |
| AppModelHelpers.ProcessSubscriptionByEmail | backend/app/models/helpers.py:10-40 | an email that cannot be bound raises with nothing changed; an email no user has changes nothing; otherwise the upsert and the grant commit together exactly when no other row holds the session's Stripe ids: premium access, premium_since set only when unset, an active subscription |
| AppModelHelpers.EmailOwner | backend/app/models/helpers.py:12 | `filter_by(email=...)` with the email as sent: a list or object cannot be bound, a null names nobody, any other value finds the first user whose email is its SQLite text |
| AppModelHelpers.ActivateForUser | backend/app/models/helpers.py:14-37 | the upsert and the grant as one commit, which succeeds exactly when no other row holds the session's Stripe ids and otherwise writes nothing |
| AppModelHelpers.GrantAfterUpsert | backend/app/models/helpers.py:33-35 | the user gets premium access, premium_since only when unset, and the subscription is left as the upsert made it |
| AppStripeController.VerifyEvent | backend/app/stripe_controller.py:82-95 | an event is taken exactly when the payload is JSON and, with a missing or 'whsec_test_' secret, in development, otherwise with a valid signature; a test secret outside development is 500 |
| AppStripeController.UncheckedOnlyInDevelopment | backend/app/stripe_controller.py:84-87 | the signature is skipped only in development with a test secret |
| AppStripeController.DataObject | backend/app/stripe_controller.py:102 | `event['data']['object']`, exactly when both subscripts succeed |
| AppStripeController.Dispatch | backend/app/stripe_controller.py:97-185 | no type and no data object are the exception branches; the four known types take their branch with the event's object; any other type is ignored |
| AppStripeController.OtherTypesIgnored | backend/app/stripe_controller.py:101-187 | an event of another type is answered with success whatever its data |
| AppStripeController.CheckoutPlan | backend/app/stripe_controller.py:103-147 | a truthy integer reference is a user id, else a truthy email is used, else the session is skipped; a subscript that raises or a reference int() rejects with a TypeError crashes |
| AppStripeController.EmailFallback | backend/app/stripe_controller.py:138-143 | a reference that is not an integer falls back to the email |
| AppStripeController.CheckoutCompleted | backend/app/stripe_controller.py:101-147 | by id a missing user is only logged; otherwise the user gets premium (premium_since only when unset) and one subscription, updated in place or appended, active from now; a commit failing on a taken Stripe id is 500 with nothing changed; by email the same for the user the email names as SQLite text, nothing for an unknown email, and 500 with nothing changed for a list or object email |
| AppStripeController.ObjectId | backend/app/stripe_controller.py:151-153 | `subscription_data['id']` as the query binds it: none when the subscript raises or the id is a list or object, a null id as `IS NULL`, otherwise its SQLite text, a bool as '1' or '0' |
| AppStripeController.SubscriptionDeleted | backend/app/stripe_controller.py:149-162 | the subscription with the Stripe id becomes 'canceled' now and its user loses premium, nothing else changes; an unknown id is only logged |
| AppStripeController.CancelRow | backend/app/stripe_controller.py:156-157 | only status and canceled_at of the row change |
| AppStripeController.Timestamp | backend/app/stripe_controller.py:171-172 | `datetime.fromtimestamp` of an integer is that instant in the server's local time, the given UTC offset added; None when it raises |
| AppStripeController.SubscriptionUpdated | backend/app/stripe_controller.py:164-176 | a known subscription takes the event's status, as the NOT NULL text column stores it, and its period end in local time, nothing else changes; an unknown id is only logged; a missing status or end, an end `fromtimestamp` rejects, and a status that is null, a list or an object are each the 500 with nothing changed |
| AppStripeController.HandleWebhook | backend/app/stripe_controller.py:75-187 | refused verification answers first; then the type's branch; a failed invoice, an ignored type, a missing type or object change nothing; the answer is 200, 400 or 500 |
| AppStripeResources.CheckoutUser | backend/app/stripe_resources.py:20-45 | a user is found exactly when the identity's integer value is a primary key or the identity is a google_id; a number below one billion that names a user finds that user |
| AppStripeResources.CheckoutRefusal | backend/app/stripe_resources.py:13-50 | a falsy price id is 400 "Price ID is required"; then the session is created exactly when the lookup finds a user, otherwise 404 "User not found" |
| AppStripeResources.CountFailure | backend/app/stripe_resources.py:178-190 | the count goes up by one from its value or 0, the status becomes 'past_due', or 'canceled' with the payer's premium withdrawn from the third failure on; nothing else changes |
| AppStripeResources.ThreeFailures | backend/app/stripe_resources.py:180-190 | three failed invoices on a subscription with no failures yet: the first two leave it past due with the user's premium untouched, the third makes the count 3, cancels it and withdraws premium; the user's email, role and premium start stay |
| AppStripeResources.RecordFailedPayment | backend/app/stripe_resources.py:195-213 | afterwards the intent has a 'failed' row: the existing one updated in place, or one new row appended, so never two |
| AppStripeResources.ByIntentOfUniqueLast | backend/app/models/payment.py:9 | in a valid table the lookup by a row's own intent finds that row |
| AppStripeResources.InvoiceSubscription | backend/app/stripe_resources.py:175-178 | a truthy subscription id that can be bound finds the table's row whose Stripe id is its SQLite text, and nothing is found exactly when the id is falsy, unbindable or held by no row |
| AppStripeResources.FailedInvoice | backend/app/stripe_resources.py:155-226 | unless the invoice's customer email names a user and both ids can be bound, nothing changes (errors are swallowed and the session rolled back); otherwise the named subscription counts the failure and a given intent gets its 'failed' row under its SQLite text |
| AppStripeResources.FailureOnSubscription | backend/app/stripe_resources.py:173-192 | the named subscription counts the failure; an unknown one changes nothing |
| AppStripeResources.ApplyFailure | backend/app/stripe_resources.py:170-216 | the subscription's failure count and the payment row, as one commit for the user of the email; a subscription id or intent that cannot be bound writes nothing |
| AppStripeResources.FailedIntent | backend/app/stripe_resources.py:194-213 | a truthy intent that can be bound ends with a 'failed' row under its SQLite text, True as '1'; a falsy or unbindable one leaves the payments |
| AppStripeResources.CheckoutEmail | backend/app/stripe_resources.py:108-114 | a truthy customer_email is used; the metadata fallback raises only when the metadata is not an object |
| AppStripeResources.Webhook | backend/app/stripe_resources.py:83-232 | a bad payload or signature is 400 with nothing changed; the subscription branches change nothing and answer 500 exactly when they reach the call with three arguments; a failed invoice is 500 only without an id; a checkout with an email that cannot be bound is 500 with nothing changed, and one whose email names a user grants premium and an active subscription; other types change nothing |
| V2StripeController.VerifySession | backend_v2/app/controllers/stripe_controller.py:76-107 | the reply succeeds exactly when the retrieved session is paid and its metadata user_id is the text of the current user's id; then the user is premium until 30 days from now; a retrieval error or an unpaid session is a 400 that changes nothing |
| V2StripeController.NumericMetadataRefused | backend_v2/app/controllers/stripe_controller.py:81 | a user_id stored as a number never equals `str(current_user.id)`, so such a session is never taken as paid |
| V2StripeController.PaymentTarget | backend_v2/app/controllers/stripe_controller.py:143-146 | a user is found exactly when the metadata is an object holding a truthy user_id that int() accepts and some user has that id, and then it is the first such user |
| V2StripeController.HandleSuccessfulPayment | backend_v2/app/controllers/stripe_controller.py:140-151 | the target user becomes premium until 30 days from now, keeping id and customer id; every other user, and everyone when there is no target, is unchanged |
| V2StripeController.CustomerTarget | backend_v2/app/controllers/stripe_controller.py:156-157 | a found user is in the table and has the event's customer id as its stripe customer id |
| V2StripeController.RenewalAtLeastPeriod | backend_v2/app/controllers/stripe_controller.py:159-163 | a renewal adds exactly 30 days to an expiry still in the future, restarts a missing or past one at now plus 30 days, and always leaves at least 30 days |
| V2StripeController.HandleSubscriptionPayment | backend_v2/app/controllers/stripe_controller.py:153-168 | the customer's user is premium with the renewed expiry; nobody else changes, and nobody at all when no user has the invoice's customer id |
| V2StripeController.StripeWebhook | backend_v2/app/controllers/stripe_controller.py:110-138 | an invalid payload or signature is a 400 with its own message; a verified event always gets the success reply; a completed checkout and a paid invoice run their handlers; any other type, including a deleted subscription, changes no user |
| V2StripeController.CancelSubscription | backend_v2/app/controllers/stripe_controller.py:186-225 | it succeeds exactly when the user has a non-empty customer id, the listing succeeds with at least one active subscription and the deletion succeeds; the one deleted is the first active subscription; every failure is a 400 |
| V2QuizModel.AnswerDict | backend_v2/app/models/quiz.py:98-109 | the answer's dict has its id, text and order, and holds is_correct exactly when asked to |
| V2QuizModel.QuestionDict | backend_v2/app/models/quiz.py:69-82 | the question's dict holds answers exactly when asked to, and those are its answers' dicts without the correct flag |
| V2QuizModel.QuizDict | backend_v2/app/models/quiz.py:30-49 | the quiz's dict holds its id and its number of questions, and holds questions, each serialised with its answers, exactly when asked to |
| V2QuizModel.QuestionDicts | backend_v2/app/models/quiz.py:47 | one entry per question, in order, each that question's dict with answers |
| V2QuizModel.QuizDictHidesCorrect | backend_v2/app/models/quiz.py:47-107 | a quiz serialised with its questions never reveals which answers are correct |
| V2QuizModel.FirstCorrectIsFirst | backend_v2/app/models/quiz.py:157 | the correct answer looked up is the one at the lowest index marked correct, and there is none exactly when no answer is marked correct |
| V2QuizModel.EarnedAtMostTotal | backend_v2/app/models/quiz.py:149-159 | with non-negative points the earned points are between 0 and the total points |
| V2QuizModel.AllCorrectEarnsAll | backend_v2/app/models/quiz.py:152-159 | answering every question with the id of its first correct answer earns all the points |
| V2QuizModel.PercentageBounds | backend_v2/app/models/quiz.py:163 | the percentage is between 0 and 100, and full marks on a quiz with points give 100 |
| V2QuizModel.QuizAttempt.constructor | backend_v2/app/models/quiz.py:115-131 | a new attempt holds its ids and start time and no answers, score, maximum, percentage, completion or duration |
| V2QuizModel.QuizAttempt.SetAnswers | backend_v2/app/models/quiz.py:133-135 | the answers stored are read back unchanged |
| V2QuizModel.QuizAttempt.Answers | backend_v2/app/models/quiz.py:137-141 | the stored answers, or an empty object when none are stored |
| V2QuizModel.QuizAttempt.CalculateScore | backend_v2/app/models/quiz.py:143-163 | with no answers stored nothing changes; otherwise the score is the points the answers earn, the maximum is the sum of all points and the percentage is their ratio times 100, or 0 without points; a question whose points are missing makes the loop raise and nothing is stored |
| V2QuizController.Missing | backend_v2/app/controllers/quiz_controller.py:73-91 | as written an unknown id is the handler's 500; with the NotFound let through it is a 404 |
| V2QuizController.FindQuiz | backend_v2/app/controllers/quiz_controller.py:73 | a quiz found is in the table and has the id; none is found only when no quiz has it |
| V2QuizController.PublicQuizzes | backend_v2/app/controllers/quiz_controller.py:39-42 | a quiz is listed exactly when it is in the table, stored public and matches the search, and the list keeps the table's order |
| V2QuizController.SearchByTitle | backend_v2/app/controllers/quiz_controller.py:41-42 | for a search without wildcards, exactly the public quizzes whose title contains it, ignoring ASCII case |
| V2QuizController.EmptySearchListsAllPublic | backend_v2/app/controllers/quiz_controller.py:39-41 | an empty search lists every public quiz |
| V2QuizController.Dicts | backend_v2/app/controllers/quiz_controller.py:52 | one dict per quiz, in order, each its to_dict without questions |
| V2QuizController.GetQuizzes | backend_v2/app/controllers/quiz_controller.py:31-61 | the reply succeeds with the listed quizzes' dicts |
| V2QuizController.MyQuizzes | backend_v2/app/controllers/quiz_controller.py:98 | a quiz is listed exactly when the signed-in user created it, public or not, in table order |
| V2QuizController.GetQuiz | backend_v2/app/controllers/quiz_controller.py:69-91 | an unknown id is the not-found reply; a quiz that is not public is a 403 unless the viewer is signed in as its creator; the reply is 200 exactly in the remaining case and then holds the quiz with its questions |
| V2QuizController.PrivateQuizForCreatorOnly | backend_v2/app/controllers/quiz_controller.py:76-85 | a quiz that is not public is shown only to its creator, and what is shown never says which answers are correct |
| V2QuizController.UnknownQuizAsWritten | backend_v2/app/controllers/quiz_controller.py:73-91 | as written an unknown quiz id gives the 500 of the handler's catch |
| V2QuizController.UnknownQuizIs404 | backend_v2/app/controllers/quiz_controller.py:73 | with the NotFound let through, the reply is 404 exactly when no quiz has the id |
| V2QuizController.AnswerRowsUpToMeaning | backend_v2/app/controllers/quiz_controller.py:146-155 | the answers' rows follow their data one for one, answer k with id aid + k, and the question raises as soon as one answer does |
| V2QuizController.AnswerRowsMeaning | backend_v2/app/controllers/quiz_controller.py:146-155 | the same for all of a question's answers |
| V2QuizController.RowsUpToNext | backend_v2/app/controllers/quiz_controller.py:133-155 | one more question grows the rows by its row, answers numbered on, or raises with it |
| V2QuizController.RowsStayNone | backend_v2/app/controllers/quiz_controller.py:133-166 | once a question raises, no longer prefix of the data is committed |
| V2QuizController.RowsUpToLength | backend_v2/app/controllers/quiz_controller.py:133-143 | one row per question of the data |
| V2QuizController.RowsUpToAt | backend_v2/app/controllers/quiz_controller.py:133-155 | question k is the row of data item k with id qid + k, its answers numbered on from those of the questions before it |
| V2QuizController.QuestionRowsAt | backend_v2/app/controllers/quiz_controller.py:133-155 | the same for all of the questions' data |
| V2QuizController.QuestionRowHead | backend_v2/app/controllers/quiz_controller.py:134-155 | a question's row is its own columns with its answers' rows |
| V2QuizController.QuizRowSteps | backend_v2/app/controllers/quiz_controller.py:116-157 | the quiz is committed only when its own columns, the questions' list and every question's rows all succeed, and then it holds those rows |
| V2QuizController.AnswerDefaults | backend_v2/app/controllers/quiz_controller.py:148-153 | an answer without is_correct, or with it null, is stored not correct, and one without order_index, or with it null, at 0 |
| V2QuizController.QuestionDefaults | backend_v2/app/controllers/quiz_controller.py:134-146 | a question whose question_type is missing or null is 'multiple_choice', whose points are missing or null worth 1, whose order_index is missing or null at 0, and without answers has none |
| V2QuizController.QuizDefaults | backend_v2/app/controllers/quiz_controller.py:119-132 | a quiz without description has '' and with a null one none; a missing or null is_public is public, a missing or null randomize_questions not randomised; a missing or null time_limit is none, and without questions it has none; it carries the creator and the creation time |
| V2QuizController.TitleRequired | backend_v2/app/controllers/quiz_controller.py:120 | without a title nothing is created |
| V2QuizController.BuildQuestion | backend_v2/app/controllers/quiz_controller.py:134-155 | the loop over one question's answers builds that question's rows |
| V2QuizController.AddQuestion | backend_v2/app/controllers/quiz_controller.py:133-155 | one turn of the loop over the questions extends the rows of the questions before it |
| V2QuizController.BuildQuestions | backend_v2/app/controllers/quiz_controller.py:132-155 | the loop over the questions builds the rows of all of them |
| V2QuizController.BuildQuiz | backend_v2/app/controllers/quiz_controller.py:116-157 | the rows added before the commit are the quiz's rows, each field as its column stores it (integer text in an Integer column as that integer, an int in a text column as its text), or none after a rollback |
| Common.TextCell | backend_v2/app/models/quiz.py:11-12 | what SQLite keeps in a text column: null as NULL, text as it is, an int as its decimal text, a bool as '1' or '0'; a list or object cannot be bound |
| V2QuizController.IntCell | backend_v2/app/models/quiz.py:63-64 | what SQLite keeps in an Integer column: null as NULL, an int as it is, a bool as 0 or 1, signed decimal text through INTEGER affinity as its number; other text, lists and objects are not stored |
| V2QuizController.IntegerTextIsStored | backend_v2/app/models/quiz.py:63 | the decimal text of any integer, sent for points or order_index, is stored as that integer |
| V2QuizController.BoolCell | backend_v2/app/models/quiz.py:18-20 | what SQLAlchemy's Boolean column accepts: null, a bool, or the int 0 or 1; anything else raises |
| V2QuizController.Given | backend_v2/app/controllers/quiz_controller.py:121-125 | `data.get(key, default)` for a column whose default is the same: a missing key and an explicit null both give the default, since the INSERT leaves a None out |
| V2QuizController.QuizHead | backend_v2/app/controllers/quiz_controller.py:119-126 | a quiz row exists only for a dict body whose fields fit their columns and whose title is not null; it has the given ids, no questions yet, both time stamps now, and the title as its column stores it |
| V2QuizController.QuestionHead | backend_v2/app/controllers/quiz_controller.py:134-140 | a question row exists only for a dict whose fields fit and whose question_text is not null; it has the given ids, no answers yet and the text as stored |
| V2QuizController.AnswerRow | backend_v2/app/controllers/quiz_controller.py:148-153 | an answer row exists only for a dict whose fields fit and whose answer_text is not null; it has the given ids and the text as stored |
| V2QuizController.QuizRowIds | backend_v2/app/controllers/quiz_controller.py:128-129 | the committed quiz has the id the flush gave it |
| V2QuizController.StrippingMeaning | backend_v2/app/controllers/quiz_controller.py:199-201 | after stripping no answer has an is_correct key, and stripping a question that has none changes nothing |
| V2QuizController.StripAnswers | backend_v2/app/controllers/quiz_controller.py:200-201 | each answer dict loses its is_correct key and keeps the rest |
| V2QuizController.StripQuestions | backend_v2/app/controllers/quiz_controller.py:199-201 | each question is stripped in place, in order |
| V2QuizController.StrippingQuizDictIsIdle | backend_v2/app/controllers/quiz_controller.py:197-201 | the dicts to_dict gives can be stripped, and stripping them changes nothing |
| V2QuizController.QuizStore.constructor | backend_v2/app/controllers/quiz_controller.py:111-281 | the store starts with no quizzes and no attempts, in a valid state |
| V2QuizController.QuizStore.FindAttempt | backend_v2/app/controllers/quiz_controller.py:222 | an attempt found is in the table and has the id; none is found only when no attempt has it |
| V2QuizController.QuizStore.CreateQuiz | backend_v2/app/controllers/quiz_controller.py:111-170 | when the data builds a quiz it is appended and the reply holds it with its questions; otherwise the session rolls back, nothing is added and the reply is the 500 |
| V2QuizController.QuizStore.Commit | backend_v2/app/controllers/quiz_controller.py:157 | the quiz joins the table under the next id, and the ids stay unique |
| V2QuizController.QuizStore.StartQuiz | backend_v2/app/controllers/quiz_controller.py:172-215 | an unknown quiz is the not-found reply and a quiz the user may not see a 403, neither adding an attempt; the reply is 200 exactly otherwise, and then one new attempt by the user at the quiz, started now and open, is appended and returned with the quiz |
| V2QuizController.QuizStore.SubmitQuiz | backend_v2/app/controllers/quiz_controller.py:217-263 | an unknown attempt is the not-found reply, another user's attempt a 403 and a completed one a 400; otherwise the reply is 200 exactly when the body is an object and the score can be computed, and then the attempt holds the answers, the completion time, the time taken and the score; no other attempt changes |
| V2QuizController.FirstAttempt | backend_v2/app/controllers/quiz_controller.py:222 | an attempt found is in the list and has the id; none is found only when no attempt has it |
| V2QuizController.CompleteAttempt | backend_v2/app/controllers/quiz_controller.py:242-245 | the attempt holds the answers, completion now, the time taken since its start, and the score, maximum and percentage of those answers |
| V2QuizController.SubmitTwice | backend_v2/app/controllers/quiz_controller.py:232-245 | after a successful submission a second one is refused with 400, and the first submission's answers and completion time stay |
| V2App.ResponseHeaders.constructor | backend_v2/app.py:75 | the hook starts from the response's headers as they are |
| V2App.ResponseHeaders.Pop | backend_v2/app.py:92 | every header under the name is removed and the others stay in order |
| V2App.ResponseHeaders.Add | backend_v2/app.py:94 | one header is appended after the others |
| V2App.RewriteCookies | backend_v2/app.py:79-89 | one rewritten value per Set-Cookie value, in order |
| V2App.AddAll | backend_v2/app.py:93-94 | the rewritten values are appended as Set-Cookie headers, in order |
| V2App.SetCookieAttributes | backend_v2/app.py:75-96 | the new headers are the other headers, unchanged and in order, followed by the rewritten Set-Cookie values |
| V2App.CookiesKeptInOrder | backend_v2/app.py:78-94 | after the hook the Set-Cookie values are the old ones rewritten, as many and in the same order, and the other headers are as before |
| V2App.NoneLeft | backend_v2/app.py:92 | after the pop nothing under the name is left, and popping again changes nothing |
| V2App.AddedNamed | backend_v2/app.py:92-94 | headers added under the name after the pop are exactly the name's values, and removing them gives back the other headers |
| V2App.OthersKept | backend_v2/app.py:92 | every header kept by the pop was a header of the response under another name |
| V2App.ReplacementPresent | backend_v2/app.py:84-85 | replacing a text that occurs leaves the replacement in the value |
| V2App.RewriteHasSameSite | backend_v2/app.py:82-89 | every rewritten cookie carries a lower-case 'samesite=' attribute |
| V2App.AppendedWhenAbsent | backend_v2/app.py:87-88 | a value without 'samesite=' gets '; samesite=None' appended |
| V2App.OtherValueUnchanged | backend_v2/app.py:84-89 | a value with another SameSite value, such as 'samesite=Strict', is left as it is |
| V2App.MixedCaseGetsSecondAttribute | backend_v2/app.py:84-88 | the tests are case-sensitive: 'SameSite=Lax' is not replaced and gets a second, lower-case attribute |
| V2UserModel.User.constructor | backend_v2/app/models/user.py:25-27 | a new user is not premium and has no expiry |
| V2UserModel.User.ActivateFrom | backend_v2/app/controllers/stripe_controller.py:146-148 | the user is premium until 30 days from now, whatever expiry was stored, keeping its id and customer id |
| V2UserModel.FirstWithId | backend_v2/app/controllers/stripe_controller.py:145 | a user found is in the table and has the id; none is found only when no user has it |
| V2UserModel.FirstWithCustomer | backend_v2/app/controllers/stripe_controller.py:157-174 | a user found is in the table and has the customer id; none is found only when no user has it |
| V2UserModel.UserTable.constructor | backend_v2/app/models/user.py:8-27 | the table starts empty, with unique ids |
| JsArrays.IdOf | server.cjs:72 | reading `q.id` raises exactly on null; an id read is the object's own id field |
| JsArrays.FindFrom | server.cjs:72 | the scan from index k stops at a match or at a null, with every element before it passed over, or passes over every element |
| JsArrays.FindIsFirst | src/context/QuizContext.jsx:35-43 | the lookup gives the first element whose id equals the value, or the TypeError of the first null when that comes first |
| JsArrays.FindFromIsFirst | server.cjs:117 | the same from any index on |
| JsArrays.FindFromNone | server.cjs:72 | when every element from an index on is passed over, nothing is found |
| QuizServer.ParamId | server.cjs:72 | the path parameter read by parseInt is a number, or NaN, which equals no id |
| QuizServer.MaxId | server.cjs:91 | the largest id is at least 0 and at least every id, and some quiz has it unless it is 0; it is NaN exactly when some id is not a number |
| QuizServer.JsNumberOfText | server.cjs:91 | `Math.max` reads an id given as the decimal text of n, as [n], as ["n"] as n, and [] or [null] as 0 |
| QuizServer.NewQuiz | server.cjs:92-95 | the new quiz has every key of the body with the body's value, and, when the body has no id, the id one above the largest |
| QuizServer.Merge | server.cjs:122-126 | the merged quiz has the body's values over the stored ones, keeps the stored values the body leaves out, and has the path's id whatever either said |
| QuizServer.AssignedIdIsFresh | server.cjs:91-93 | the id a server-assigned quiz gets is at least 1 and no quiz in the list has it |
| QuizServer.GetQuiz | server.cjs:68-82 | the reply is 200 with the first quiz whose id equals the path's number exactly when the scan finds one, 404 exactly when no quiz has it, and 500 exactly when a null comes first |
| QuizServer.QuizFile.constructor | server.cjs:60-61 | the file holds the quizzes given and has not been written |
| QuizServer.QuizFile.Post | server.cjs:85-108 | the new quiz is appended and is the 201 reply, with one write; a null quiz in the list makes the 500 and nothing changes |
| QuizServer.QuizFile.Put | server.cjs:111-137 | the first quiz with the path's id is replaced by the merge, with one write, and is the reply; an unknown id is a 404 and a null met first a 500, with nothing written |
| QuizServer.QuizFile.Delete | server.cjs:140-162 | the first quiz with the path's id is taken out and the rest keep their order, with one write; an unknown id is a 404 and a null met first a 500, with nothing written |
| QuizServer.PostThenGet | server.cjs:68-108 | a quiz posted without its own id is what a GET of the assigned id then finds |
| QuizServer.PutThenGet | server.cjs:68-137 | after a PUT the same GET finds the merged quiz |
| QuizServer.DeleteThenFind | server.cjs:146-151 | after a DELETE the scan for the same id finds what came after the deleted quiz, one place earlier |
| QuizServer.ShiftedScan | server.cjs:146-151 | the list without index i scans from there as the original does from i + 1 |
| QuizServer.DeleteRemovesOne | server.cjs:151 | the splice takes out exactly one quiz and keeps every other |
| QuizStore.InitialQuizzes | src/context/QuizContext.jsx:15-18 | nothing saved gives []; a saved list is copied as it is, a saved string gives its characters, and any other saved value raises |
| QuizStore.AddQuiz | src/context/QuizContext.jsx:20-22 | one quiz more at the end, the others unchanged, with the caller's fields and the generated id in place of any id it had |
| QuizStore.Replacement | src/context/QuizContext.jsx:26 | the replacement has the updated quiz's fields and the id it replaces |
| QuizStore.UpdateQuiz | src/context/QuizContext.jsx:24-28 | with no null in the list, every quiz with the id becomes the replacement and every other stays in place; a null raises |
| QuizStore.DeleteQuiz | src/context/QuizContext.jsx:30-32 | with no null in the list, what is left are quizzes without the id; a null raises |
| QuizStore.GetQuiz | src/context/QuizContext.jsx:34-36 | the first quiz whose id equals the value, none when every quiz is passed over, or the TypeError of a null met first |
| QuizStore.TimePerQuestion | src/context/QuizContext.jsx:49 | a truthy timeLimit is kept, anything else gives 30 |
| QuizStore.GetQuizById | src/context/QuizContext.jsx:42-51 | the quiz found, with every field kept and timePerQuestion added; the rejection 'Quiz not found' when no quiz has the id |
| QuizStore.AddThenGet | src/context/QuizContext.jsx:20-36 | the added quiz is what getQuiz finds under the generated id, unless an older quiz has that id |
| QuizStore.UpdateThenGet | src/context/QuizContext.jsx:24-36 | after updating a quiz that exists, getQuiz of the id gives the replacement |
| QuizStore.UpdateIdempotent | src/context/QuizContext.jsx:24-28 | updating twice with the same quiz changes nothing more |
| QuizStore.DeleteKeepsOthers | src/context/QuizContext.jsx:30-32 | the deletion keeps every quiz without the id as many times as before and none with it |
| QuizStore.DeleteKeepsOrder | src/context/QuizContext.jsx:30-32 | the deletion keeps the order of what it keeps |
| QuizStore.DeleteThenGet | src/context/QuizContext.jsx:30-36 | after the deletion no quiz has the id, and deleting again changes nothing |
| QuizStore.KeptGoesThrough | src/context/QuizContext.jsx:30-32 | what the deletion keeps is no null and is passed over by a lookup of the id |
| QuizStore.DeleteOfKept | src/context/QuizContext.jsx:30-32 | a list whose every quiz is kept is its own deletion |
| ClientAuth.Field | src/context/AuthContext.jsx:47-66 | reading a field raises exactly on a null item |
| ClientAuth.FindUser | src/context/AuthContext.jsx:47 | a user found has that email and password and is the first such, every earlier item being no null and not matching; none is found exactly when no item is null and none matches; a raise comes from a null item |
| ClientAuth.EmailInUse | src/context/AuthContext.jsx:66 | the email counts as used when some item has it, and as free exactly when no item is null and none has it |
| ClientAuth.WithoutPassword | src/context/AuthContext.jsx:53-89 | the copy has every field but the password, with the same values |
| ClientAuth.AuthProvider.constructor | src/context/AuthContext.jsx:10-27 | the stored user becomes the current one and the list is what users.json held |
| ClientAuth.AuthProvider.Login | src/context/AuthContext.jsx:45-62 | the first user with the email and password becomes the current and stored user, without the password; otherwise the reply is the wrong-credentials failure, or the error of a null item, and nothing changes |
| ClientAuth.AuthProvider.Register | src/context/AuthContext.jsx:64-97 | a used email is refused and a null item fails, changing nothing; a failed save replies with its error and changes nothing; otherwise the new user is appended and becomes the current and stored user without the password |
| ClientAuth.AuthProvider.Logout | src/context/AuthContext.jsx:99-102 | nobody is logged in and nothing is stored; the list stays |
| ClientAuth.LoginSucceedsIff | src/context/AuthContext.jsx:47-58 | on a list with no null, login finds a user exactly when some user has that email and that password |
| ClientAuth.LoggedInUserFields | src/context/AuthContext.jsx:47-56 | the user found has the email, and the current user keeps every field but the password |
| ClientAuth.NewUserFields | src/context/AuthContext.jsx:70-82 | the new user has the next id, the beginner level and zero statistics; the current user has every field of it but the password |
| ClientAuth.RegisteredEmailInUse | src/context/AuthContext.jsx:66-86 | after a registration the email is in use, so a second registration with it is refused |
| ClientAuth.EmailAppended | src/context/AuthContext.jsx:66-84 | an email free in the list is in use once a user with it is appended |
| ClientAuth.RegisteredCanLogIn | src/context/AuthContext.jsx:47-86 | a user who registered can log in with the same email and password |
| ClientAuth.FindAppended | src/context/AuthContext.jsx:47-84 | a login finds the appended user when no earlier user has the email |
| AuthVerifier.Verifier.constructor | src/components/AuthVerifier.jsx:13-14 | no failures, last verified now, not logged out |
| AuthVerifier.Verifier.Verify | src/components/AuthVerifier.jsx:18-66 | without a user nothing changes; otherwise the counter becomes NextFailures of the count the run saw, the verification time is renewed only by a successful check, and the run logs out exactly when LogsOut holds |
| AuthVerifier.NextFailures | src/components/AuthVerifier.jsx:30-57 | a successful check or refresh resets the counter; a failed refresh adds one, a refresh that raises adds two, a check that raises adds one |
| AuthVerifier.NextFailuresOnce | src/components/AuthVerifier.jsx:48-60 | the intended count: a failed run adds one however it failed, a successful one resets |
| AuthVerifier.SuccessResets | src/components/AuthVerifier.jsx:30-43 | a successful check or refresh resets the counter and never logs out |
| AuthVerifier.FailureCounts | src/components/AuthVerifier.jsx:36-57 | a failed run raises the counter by one, or by two exactly when the check failed and the refresh raised |
| AuthVerifier.RaisingRefreshLogsOutOnSecond | src/components/AuthVerifier.jsx:36-60 | as written, a refresh that raises and then one more failed run log out on the second run; counted once per run, they do not |
| AuthVerifier.TwoFailuresKeepUser | src/components/AuthVerifier.jsx:48-60 | as written, one or two failed runs from a reset counter keep the user when the first refresh did not raise |
| AuthVerifier.TwoFailuresKeepUserOnce | src/components/AuthVerifier.jsx:48-60 | counted once per run, one or two failed runs from a reset counter never log out |
| AuthVerifier.ThreeFailuresLogOut | src/components/AuthVerifier.jsx:48-60 | either way, three failed runs in a row log out by the third |
| AuthVerifier.ShippedContextLogsOutOnThird | src/components/AuthVerifier.jsx:28-60 | with the shipped context every check raises: two runs keep the user and the third logs out with the counter at three |
| SolveQuiz.MaxTime | src/pages/SolveQuiz.jsx:102-126 | a non-zero time limit is kept, 0 gives 30 |
| SolveQuiz.CorrectIndex | src/pages/SolveQuiz.jsx:116-118 | a numeric correctAnswer is compared as it is, a string through parseInt, and anything else equals no index |
| SolveQuiz.Session.constructor | src/pages/SolveQuiz.jsx:80-106 | the first question, a full clock, nothing selected, scored or shown, the timer running |
| SolveQuiz.Session.SelectAnswer | src/pages/SolveQuiz.jsx:109-142 | only the first answer to a question counts: it is selected and stops the timer, and a correct one adds one correct answer and 100 plus the time bonus; a second answer changes nothing |
| SolveQuiz.Session.Tick | src/pages/SolveQuiz.jsx:208-234 | while the timer runs the clock goes down by one, and at 1 or less stops at 0 with the timeout selected and the timer off; the score never changes |
| SolveQuiz.Session.RevealScores | src/pages/SolveQuiz.jsx:133-135 | the scores are shown |
| SolveQuiz.Session.NextQuestion | src/pages/SolveQuiz.jsx:88-106 | after the last question the result is shown and the timer stops; otherwise the next question starts with a full clock and nothing selected; the score stays |
| SolveQuiz.MulLeq | src/pages/SolveQuiz.jsx:127 | multiplying by a non-negative number keeps an order |
| SolveQuiz.QuotientUnique | src/pages/SolveQuiz.jsx:251 | the quotient of a positive divisor is the one integer that brackets the dividend |
| SolveQuiz.PointsBounds | src/pages/SolveQuiz.jsx:126-128 | with a positive limit and the clock within it, a correct answer is worth 100 to 200 points |
| SolveQuiz.FasterScoresMore | src/pages/SolveQuiz.jsx:127-128 | answering with more time left never scores less |
| SolveQuiz.ScoreWithinShownMaximum | src/pages/SolveQuiz.jsx:280 | the score never passes the maximum shown, 200 per question, and at most every question is counted correct |
| SolveQuiz.PercentageBounds | src/pages/SolveQuiz.jsx:249-252 | the result is between 0 and 100, and all correct gives 100 |
| SolveQuiz.RoundsUpToFull | src/pages/SolveQuiz.jsx:251 | rounding shows 100% for 199 correct out of 200 |
| SolveQuiz.StringAnswerParsed | src/pages/SolveQuiz.jsx:116-117 | a correctAnswer stored as the text of a number is the index it names |
| QuizEditor.DraftAlert | src/pages/CreateQuiz.jsx:110-118 | a blank question gets the empty-question alert, then any blank option the blank-option alert, and the draft passes exactly when neither is blank |
| QuizEditor.ReplaceAt | src/pages/CreateQuiz.jsx:123-125 | the same length, with only the item at the index replaced |
| QuizEditor.RemoveAt | src/pages/CreateQuiz.jsx:151 | the list without the item at the index, in order, or the same list for an index outside it |
| QuizEditor.SetOption | src/pages/CreateQuiz.jsx:72-78 | only the option at the index changes; the question, the correct answer and the explanation stay |
| QuizEditor.Stamped | src/pages/CreateQuiz.jsx:170-179 | the map with the one time stamp set and every other key kept |
| QuizEditor.Submit | src/pages/CreateQuiz.jsx:155-185 | a blank title is refused first, then a quiz without questions; otherwise an edited quiz is updated under its own id and a new one added with createdAt; both keep the form's title and its number of questions and get lastModified |
| QuizEditor.Editor.constructor | src/pages/CreateQuiz.jsx:17-36 | the form starts with the edited quiz's questions, or none, an empty draft, no question being edited and no changes |
| QuizEditor.Editor.ChangeOption | src/pages/CreateQuiz.jsx:72-78 | the draft's option at the index changes and the form has changes; the list and the edit target stay |
| QuizEditor.Editor.ChangeCorrectAnswer | src/pages/CreateQuiz.jsx:80-86 | the draft's correct answer is the index and the form has changes |
| QuizEditor.Editor.AddQuestion | src/pages/CreateQuiz.jsx:109-141 | an incomplete draft gets its alert and nothing changes; a complete one replaces exactly the question being edited or is appended, the edit ends and the draft is reset to empty text, four empty options and answer 0 |
| QuizEditor.Editor.EditQuestion | src/pages/CreateQuiz.jsx:143-146 | the draft is the listed question and it is the one being edited |
| QuizEditor.Editor.DeleteQuestion | src/pages/CreateQuiz.jsx:148-153 | exactly the question at the index goes and the rest keep their order; the index being edited is left as it was |
| QuizEditor.Editor.DeleteQuestionTracked | src/pages/CreateQuiz.jsx:148-153 | the deletion as intended: the same list change, with the index being edited moved with its question, or cleared when that question goes |
| QuizEditor.ReplaceOnlyAt | src/pages/CreateQuiz.jsx:123-125 | replacing the item at an index changes exactly that item |
| QuizEditor.AddedQuestionCounts | src/pages/CreateQuiz.jsx:120-133 | saving an edit keeps the length; adding a new question makes the list one longer with the old questions first |
| QuizEditor.DeleteWhileEditingShiftsTarget | src/pages/CreateQuiz.jsx:120-153 | as written, deleting an earlier question while one is edited makes the save overwrite the question after it and leave the original |
| QuizEditor.DeleteThenSaveCommutes | src/pages/CreateQuiz.jsx:120-153 | with the edited index moved as intended, deleting and then saving gives the same list as saving and then deleting |
| QuizEditor.CommutesAt | src/pages/CreateQuiz.jsx:123-151 | one position of the two lists of DeleteThenSaveCommutes agrees |
| QuizEditor.RemoveAtIndex | src/pages/CreateQuiz.jsx:151 | after removing index d, position j holds the item from j, or from j + 1 at or past d |
| QuizEditor.SubmittedQuizStored | src/pages/CreateQuiz.jsx:170-180 | a new quiz the form submits, once added to the quiz store, keeps the form's fields and its creation time under the store's id |
| QuizEditor.EditKeepsCreatedAt | src/pages/CreateQuiz.jsx:170-176 | saving an edited quiz updates it under its id and keeps the createdAt it was loaded with |
| QuizEditor.DeletingEditedEndsEdit | src/pages/CreateQuiz.jsx:148-153 | deleting the question being edited ends the edit, so the next save appends |
| HomePage.Insert | src/pages/HomePage.jsx:32-34 | the inserted list holds the sorted items and the new one, as many of each |
| HomePage.InsertKeepsOrder | src/pages/HomePage.jsx:32-34 | inserting keeps a list newest first |
| HomePage.InsertBounded | src/pages/HomePage.jsx:32-34 | inserting below a bound keeps every item below it |
| HomePage.SortNewestFirst | src/pages/HomePage.jsx:32-34 | the sorted copy holds the same quizzes, as many of each, ordered by creation time, newest first |
| HomePage.SortKeepsSorted | src/pages/HomePage.jsx:32-34 | a list already newest first comes back as it was, quizzes of the same time in their order |
| HomePage.DifficultyLabel | src/pages/HomePage.jsx:40 | 'easy' shows as 'Łatwy', 'medium' as 'Średni', and anything else, a missing value included, as 'Trudny' |
| HomePage.JsText | src/pages/HomePage.jsx:38 | a string shows as itself and an integer as its decimal digits inside the template literal |
| HomePage.Duration | src/pages/HomePage.jsx:38 | a non-zero numeric time limit shows as its number of seconds, a falsy or missing one as '30 s' |
| HomePage.Promote | src/pages/HomePage.jsx:36-41 | the quiz keeps its fields and gets the duration, no participants and the difficulty label in place of the difficulty |
| HomePage.PromoteAll | src/pages/HomePage.jsx:36-41 | one display form per quiz, in the same order |
| HomePage.FieldIncludes | src/pages/HomePage.jsx:75-76 | a field that is no string raises; a string field matches exactly when its lower-cased text contains the lower-cased query |
| HomePage.MatchesSearch | src/pages/HomePage.jsx:74-76 | a blank query lets every quiz through; otherwise the title is read and, only when it does not match, the difficulty label |
| HomePage.Matches | src/pages/HomePage.jsx:72-81 | a quiz passes exactly when it matches the search and, when a category is chosen, has that category; it raises exactly when the search raises |
| HomePage.Filter | src/pages/HomePage.jsx:72-81 | the list raises exactly when the test raises on some quiz; every quiz kept passes the test |
| HomePage.FilterKeepsOrder | src/pages/HomePage.jsx:72-81 | the filtered quizzes keep their order from the promoted list |
| HomePage.FilterCounts | src/pages/HomePage.jsx:72-81 | every copy of a quiz that passes is kept and none that fails |
| HomePage.FilterAll | src/pages/HomePage.jsx:72-81 | a test that lets everything through keeps the list as it is |
| HomePage.NoFilterListsAll | src/pages/HomePage.jsx:72-81 | with no search text and no category every quiz is listed, in the sorted order |
| HomePage.ListedIfMatching | src/pages/HomePage.jsx:32-81 | every quiz of the store whose display form passes the test is listed |
| HomePage.ListedComesFromStore | src/pages/HomePage.jsx:32-81 | every listed quiz is the display form of one of the store's quizzes |
| HomePage.UntrimmedQuery | src/pages/HomePage.jsx:74-75 | the query is trimmed only to test blankness: ' sieci' does not match the title 'sieci' |
| HomePage.DifficultySearchedByLabel | src/pages/HomePage.jsx:40-76 | the difficulty is searched in its label: 'easy' finds an easy quiz by its label not at all |
| HomePage.MarkRead | src/pages/HomePage.jsx:118-122 | the clicked notification is read and every other stays as it was |
| HomePage.ClickLowersBadge | src/pages/HomePage.jsx:118-133 | a click takes off the count exactly the unread notifications with the id |
| HomePage.ClickIdempotent | src/pages/HomePage.jsx:118-122 | a second click on the same notification changes nothing |
| HomePage.InitialBadge | src/pages/HomePage.jsx:18-22 | the page opens with two unread notifications; clicking the first leaves one, clicking the read one leaves two |

## Left out

- Route and framework plumbing: the Flask resources and decorators beyond the decisions modelled, JWT issuance and signing, cookie setting, CORS and ETag headers. A token is modelled as the claims it carries.
- Foreign services: the Stripe API (session creation, `Customer.retrieve`, subscription listing and deletion), Google OAuth and the werkzeug hashing. Their answers are parameters, and a password hash is an opaque digest that matches exactly its own password.
- Timing and randomness: `maybe_cleanup_tokens` draws a random number before cleaning up, and `generate_secure_token` and `generate_secure_key` draw random text. They are left out, because their outcome is chance.
- `get_token_metadata` is left out: it only reads the current request's token through the JWT extension.
- `format_datetime` and the formatted date that `calculate_time_ago` gives past thirty days are left out, because date formatting is locale and calendar code. Past thirty days the model returns the timestamp itself.
- The `admin_required` decorator of backend/utils/helpers.py is left out: it is framework glue around a role lookup. The access rules that are modelled are those of backend/app/admin_middleware.py.
- `Lower`, `Strip` and every other case folding and trimming cover ASCII only. Python's `lower()` and `strip()` and JavaScript's `toLowerCase()` also fold and trim non-ASCII characters.
- V2Helpers.ValidatePasswordStrength, AppAdminMiddleware.IsDigitText and AppAdminMiddleware.FirstLookup: a digit is an ASCII digit. Python's `isdigit()` and `int()` also accept other Unicode digits, such as Arabic-Indic or full-width ones.
- The legacy user controller's `get_all_users` and `update_user_avatar`, and the legacy quiz controller's `get_quiz_by_id`, are left out: each is a plain read, or a single assignment to a column the legacy model does not have.
- LegacyQuizController's delete models no failing commit, so it has no database-error branch.
- AppUserController's `get_all_users` and `update_user_avatar` are left out: they are plain reads and one assignment.
- `TokenBlacklistManager.cleanup_expired_tokens` is modelled only through the `BlacklistedToken.cleanup_expired_tokens` it delegates to.
- The admin controller's `get_dashboard_stats`, `get_users`, `create_offline_payment` and `get_failed_payments` are left out: they are counts and listings, or a plain insert. `get_offline_payments` is modelled as its filter and order, without pagination.
- The approve action's note is written to `admin_notes`, which is not a column, so the model stores no notes.
- `ends_at` is not a column of the subscription, so the failed-invoice cancellation stores no end date.
- The Stripe checkout-session creation of backend/app is left out except for its user lookup and guards. Session creation is a call into Stripe.
- The `customer.subscription` branches of backend/app/stripe_resources.py call `_process_subscription_by_email` with three arguments, which it does not take. They are modelled as written: the call raises before any change and the webhook replies 500.
- AppOfflinePayment.OfflinePayment.ToDict, AppUserModel.User.ToDictValues and V2QuizModel.QuizDict: the source's `to_dict` methods render dates with `isoformat`, while the model gives the integer timestamps.
- PyRepr quotes a string in single quotes without escaping. Python's `repr()` escapes quotes, backslashes and control characters and switches to double quotes for text holding a single quote.
- The v2 quiz controller's `get_quizzes` is modelled without its pagination block, which is the `paginate_query` arithmetic modelled in V2Helpers. Its `get_my_attempts` and `QuizAttempt.to_dict` are left out: they are listings and a plain dictionary.
- The v2 Stripe controller's `get_subscription_status` and `create_checkout_session` are left out: the first is a plain read and the second a call into Stripe.
- V2UserModel covers only the columns the v2 Stripe controller reads and writes.
- Floating point: `QuizAttempt.percentage`, the SolveQuiz time bonus and `Math.round` are exact rational or integer arithmetic. Floating-point rounding is therefore not modelled. The failed invoice's `amount_due / 100` is kept in cents, as Common.PyNumber reads it, rather than as a float of dollars.
- AppRoutes.RequestOfflinePayment: the amount is the integer that `float()` reads (AppRoutes.FloatOf), not a float. Only integers, bools, signed decimal text and the empty text are decided; other text such as "1.5", " 3 " or "inf" is left to the caller's choice of amount.
- QuizServer: the file reads and writes are a stored list and a write counter. The 500 replies of a failed read or parse and a request body that is an array are not modelled.
- QuizServer.MaxId: ids are converted as `Number()` converts them (QuizServer.JsNumber): integers, bools, null, trimmed signed decimal text, the empty text and one-item arrays. Text with a fraction, an exponent, a hex prefix or `Infinity` counts as NaN here, although JavaScript reads it as a number. Fractional JSON ids are not modelled, since a JSON number is an integer here.
- QuizStore: a saved value that is falsy for `JSON.parse` (an empty string) and object identity of the React state are not modelled. Lists are values.
- ClientAuth: the `fetch` of public/users.json and the `loading` flag are left out. The users list is the provider's field.
- AuthVerifier: the five-minute interval, the timer set-up and clean-up, and a `logout` that itself raises are left out. Each verification is one call of `Verify`, and the interval is the constant `VerifyInterval`.
- AuthVerifier: src/App.jsx does not mount the component, and the context it reads (src/context/AuthContext.jsx:109) provides neither `verifyAuthState` nor `refreshToken`. As shipped, every check therefore raises (AuthVerifier.ShippedContextLogsOutOnThird). The check and refresh outcomes `Yes` and `No` stand for a context that does provide the two functions. Because the counter is among the effect's dependencies, each failure re-runs the verification at once, so the runs of the model follow one another without the interval between them.
- BackendHelpers.InputOf and Common.PyStr: the `str()` text of a dict is a fixed stand-in, "{...}". The model's maps keep no key order, while Python renders `{'a': 1}` in insertion order.
- LegacyUserController.IndexOfEmail and LegacyUserController.ToDict: the legacy user rows keep the JSON value sent for username and email. Lookups and uniqueness compare the SQLite text (LegacyUserController.SameText), but a reply shows the int 5 where SQLite would read back the text '5'.
- TokenUtils.InvalidTokenTable and TokenUtils.TokenRecord: backend/utils/token_utils.py:8, backend/auth/jwt_config.py:9 and backend/routes.py:23 import `InvalidToken` from backend/models/user.py, which defines only `User`, so the import fails as shipped. The table's columns (jti, type, user_id, expires) are taken from the constructor call at backend/utils/token_utils.py:97-102; no nullability or uniqueness of them is modelled.
- AppModelHelpers.SessionCustomer and AppModelHelpers.SessionSubscription: Stripe sends the customer and subscription ids as text or null. The ids go through Common.SqliteText, and a list or object id, which Stripe does not send, is read as no id.
- SolveQuiz: the intervals and timeouts are explicit method calls (`Tick`, `RevealScores`, `NextQuestion`). Loading the quiz, rendering and `progressPercentage` are left out.
- SolveQuiz.MaxTime takes the time limit as a number. The create form stores `timeLimit` as the text of its input, and the text "0" is truthy in JavaScript, so such a quiz keeps a limit of "0" where MaxTime(0) gives 30. Text limits are not modelled.
- QuizEditor: `handleQuizDataChange` and `handleQuestionChange` are left out; each sets one field of the state. Image upload, navigation, the `beforeunload` guard and the asynchronous errors of `handleSubmit` are left out as well.
- HomePage: a `createdAt` that is not a date (NaN in the comparison), list items that are not objects, and the delete, start and edit handlers are left out. The static lists of categories and the opening notifications are constants.
- HomePage.SortNewestFirst: the stability of `Array.prototype.sort` is stated only for an input already in order (`SortKeepsSorted`), not for ties in general.
- V2QuizController.BuildQuiz and V2QuizController.QuizStore.CreateQuiz: text in an Integer column is converted only when it is a signed decimal (V2QuizController.IntCell). Padded, real or exponent text is not converted, and values beyond 64 bits are not bounded. Any other text, which SQLite would store as text, is modelled as a failed flush that rolls back.
- AppAdminController.UpdateUser: an explicit null for `role` or `has_premium_access` is modelled as a failed commit, while the source commits NULL in those columns. The autoflush that the uniqueness query triggers after an earlier `setattr` is not modelled: the queries see the stored rows.
- LegacyUserController.FindTarget: an id given as text is read as an integer only when it is signed decimal text. Text such as "3.0" or " 3 " is not converted, although SQLite's comparison may convert it.
- LegacyQuizController.QuizTable.CreateQuiz and LegacyQuizController.QuizTable.UpdateQuiz: the TEXT affinity of the legacy columns is not modelled. A category or difficulty sent as the int 5 is kept as 5, while SQLite stores and returns the text '5'.
- LegacyQuizController.QuizTable.UpdateQuiz: a refusal after some columns have been assigned leaves those assignments, uncommitted, on the session's object. The model keeps the stored row, which is what a later request in a new session reads.
- Background threads (backend/utils/scheduled_tasks.py), maintenance scripts, debug tools and UI rendering are not part of this model.

## Findings

| source | as written | input that shows it | evidently intended | confidence | as-written member | corrected member |
|---|---|---|---|---|---|---|
| backend/controllers/user_controller.py:50 | `register_user` calls `set_password`, which the User model of backend/models/user.py does not define, so every registration that passes the checks raises and is reported as a failure | the body with fullName "A", email "a" and password "p" on an empty table | the new user is stored with a hash of the password | not executed | LegacyUserController.RegisterCounterexample | LegacyUserController.RegisterCreatesUser |
| backend/controllers/user_controller.py:74 | `login_user` calls `check_password`, which is not defined: a known email raises, and the login reports an error instead of a refusal | a login with the e-mail of a stored user | a wrong password is refused exactly as an unknown e-mail is | not executed | LegacyUserController.LoginCounterexample | LegacyUserController.LoginSameRefusal |
| backend/controllers/user_controller.py:115-116 | `update_users` calls `set_password` for an entry with a password key, so the whole batch fails | one entry with the id of a stored user and a password | the user's password is replaced and the entry counted as updated | not executed | LegacyUserController.PasswordEntryCounterexample | LegacyUserController.UpdateUsersReport |
| backend_v2/app/utils/helpers.py:62-64 | `sanitize_filename` keeps the whole extension of a long name, so the result can be longer than 255 characters | "abcdefghij." followed by 289 'x', 300 characters in all | a name of at most 255 characters | not executed | V2Helpers.LongExtensionExceedsLimit | V2Helpers.SanitizeFilenameBounded |
| backend_v2/app/controllers/quiz_controller.py:73-91 | `get_or_404` raises inside `try/except Exception`, so an unknown quiz id gets the 500 reply | a GET of a quiz id no stored quiz has | a 404 reply for an unknown quiz | not executed | V2QuizController.UnknownQuizAsWritten | V2QuizController.UnknownQuizIs404 |
| src/components/AuthVerifier.jsx:57-60 | a refresh that raises is counted twice, by the failure branch and the catch, so the second failed run logs out | with a context that provides `verifyAuthState` and `refreshToken` (the shipped AuthContext provides neither): a run whose check answers false and whose refresh raises, then a run whose check and refresh both answer false | a logout on the third failure in a row, with each failed run counted once | not executed; the outcomes are stand-ins for such a context | AuthVerifier.RaisingRefreshLogsOutOnSecond | AuthVerifier.TwoFailuresKeepUserOnce |
| src/pages/CreateQuiz.jsx:120-153 | `deleteQuestion` leaves `editingQuestionIndex` as it was, so deleting an earlier question makes the save overwrite the question after the one being edited | questions [a, b, c] with b being edited, delete question 0, then save | the edit stays on its question, and deleting that question ends the edit | not executed | QuizEditor.DeleteWhileEditingShiftsTarget | QuizEditor.Editor.DeleteQuestionTracked |
