# Grand Portfolios: a verified model of the dashboard and its login

Grand Portfolios is a marketing site for an investment-portfolio firm. It has a gated client
and admin dashboard. The front end is written in React and the back end in Django. This
project models the core of both halves in Dafny and proves what that core promises.

- **Withdrawal panel** (`withdrawal.dfy`). The client dashboard has a withdrawal-qualification
  panel, modelled as the class `WithdrawalPanel`:
  - its fields are the component's ten state slots;
  - every handler folds a server reply, an input change, a clipboard write or the
    clear-message timer into those slots, as a pure `Step` on a `PanelState` value;
  - `Render` chooses what the panel shows.
  The three fetches issued on mount are independent events that may arrive in any order.
- **Token view, logout view and user creation** (`views.dfy`).
  - Logging in looks a user up by email or username, refuses missing credentials, unknown
    users, inactive users and wrong passwords, and mints a token pair.
  - Logout blacklists the refresh token.
  - The user endpoint's `perform_create` hook.
- **User model** (`models.dfy`): the manager's `create_user` and `create_superuser`, the
  user-type choices, and `save`, which hashes a raw password.
- **Route guard** (`protected_route.dfy`): reads the session once and then sends each visitor
  to the one page of their role.
- **Login form** (`login_form.dfy`).
  - It trims its fields and posts the trimmed credentials.
  - It stores the four reply fields in session storage.
  - It navigates by user type, or shows one of three error messages.
- **CSRF token reader** (`csrf.dfy`, `csrf_examples.dfy`). `getCsrfToken` is modelled as the
  regular-expression engine really runs its pattern: the first match position, the
  alternatives in order, greedy parts, and `.` not matching line terminators.
- **Services carousel** (`services.dfy`) and **home page tab bar** (`home_page.dfy`).
- **Shared pieces.**
  - `js_text.dfy`: JavaScript's `\s` class and `String.prototype.trim`, the values the login
    reply's fields take (a string, or undefined or null when missing), and `Storage.setItem`'s conversion of them to strings.
  - `wrappers.dfy`: `Option` and `Result`.
- **Cross-module lemmas** (`login_flow.dfy`). They connect the back end's token view, through
  the form's settlement, to the guard's decision.

A server call, a session read, the clock, the clipboard and Django's hasher are not run by the
model. Each is a parameter:

- a `Reply` value handed to a handler;
- an `Option<string>` read from the session;
- an event for the timer;
- a `digest: string -> string` for the hasher;
- `authenticate` and `issue` functions for Django's authentication and the JWT library.

Where the documented behaviour of the withdrawal workflow differs from the code, the model
follows the code:

- **One error slot.** There is one `error` slot, so when several mount fetches fail only the
  message of the last failure shows. They do not give three separate messages
  (`Withdrawal.MountFetchesAnyOrder`).
- **No stage guard.** Nothing checks that the stored stage lies in 1..5. A stage outside it
  makes the payment view throw (`Withdrawal.RenderFailsOnlyOutsideTable`,
  `Withdrawal.AdvancePastLastStage`).
- **Upload checks only the receipt.** The upload needs only a selected receipt and never
  looks at the payment method (`Withdrawal.WithdrawalPanel.ClickUpload`). The reply is
  applied whatever the receipt is by then (`Withdrawal.UploadReplyAfterReceiptCleared`). The receipt stays
  selected after a successful upload (`Withdrawal.UploadAccepted`).
- **Upload failure sets the error.** A 400 with an `error` field is shown verbatim; every
  other failure shows a fixed text.
- **The timer clears whatever message shows.** The timer set by a copy clears the info
  message even if a later message replaced the copy confirmation.

The route guard compares `location.pathname` with "/Admin", but the router mounts it at
"/admin" and the form navigates to "/admin". React Router matches paths case-insensitively, so
an admin is first redirected from "/admin" to "/Admin" and then shown the page
(`ProtectedRoute.MountedAdminPathRedirects`, `LoginFlow.SuccessfulLoginLands`).

## Model

| member | source | states |
|---|---|---|
| Withdrawal.StageAmount | portfolio/src/components/Withdrawal.jsx:170 | the fee lookup succeeds exactly for stages 1..5, and then yields the amount of the table row of that stage |
| Withdrawal.StageTableShape | portfolio/src/components/Withdrawal.jsx:17-23 | the table has five rows numbered 1 to 5 in order, fees strictly increase, stage 1 costs 1000 and stage 5 costs 10000 |
| Withdrawal.UploadReplyIgnoresInputs | portfolio/src/components/Withdrawal.jsx:69-84 | the upload reply is applied the same way whatever the receipt and the payment method are, and keeps both |
| Withdrawal.UploadReplyAfterReceiptCleared | portfolio/src/components/Withdrawal.jsx:64-74 | a receipt cleared while the request is under way does not stop a 200 reply from marking the stage processing |
| Withdrawal.UploadAccepted | portfolio/src/components/Withdrawal.jsx:71-74 | a 200 upload sets status "processing", the processing flag and the server's `check_back` text, and changes nothing else: the receipt stays selected, and the stage, completion, qualification, payment method, pending list and error are kept |
| Withdrawal.UploadNotAcceptedEffects | portfolio/src/components/Withdrawal.jsx:75-84 | any upload outcome other than 200 changes only the error slot: a 400 carrying an `error` field shows that text, any other 2xx shows the processing-error text, every other failure the upload-failed text |
| Withdrawal.ProceedEffects | portfolio/src/components/Withdrawal.jsx:88-98 | a successful advance stores the returned stage as given, clears both stage flags and changes nothing else; a failed one sets only the error; qualification is never touched |
| Withdrawal.ClipboardEffects | portfolio/src/components/Withdrawal.jsx:100-105 | a successful copy shows the confirmation and changes nothing else; the timer empties the info message and changes nothing else |
| Withdrawal.StepKeepsError | portfolio/src/components/Withdrawal.jsx:31-105 | no handler ever writes an empty error over a non-empty one |
| Withdrawal.ErrorNeverCleared | portfolio/src/components/Withdrawal.jsx:31-105 | once an error shows, no sequence of events clears it |
| Withdrawal.QualifiedOnlyFromItsReply | portfolio/src/components/Withdrawal.jsx:41-49 | a sequence of events without a resolved qualification reply leaves `qualified` as it was |
| Withdrawal.MountRepliesBySlice | portfolio/src/components/Withdrawal.jsx:25-62 | any sequence of mount replies, in any order and with repeats, leaves each slice holding its last successful reply's data and the error slot holding the last failure's message |
| Withdrawal.MountFetchesAnyOrder | portfolio/src/components/Withdrawal.jsx:25-62 | whatever order the three mount fetches answer in, each slice gets its own reply's data when that succeeded; the error is the message of the last failed reply, one of the three fetch messages; nothing else changes |
| Withdrawal.LastFailureIsOneOf | portfolio/src/components/Withdrawal.jsx:37-60 | the message left by failed mount fetches is always one of the three fetch-failure messages |
| Withdrawal.ViewFollowsPhase | portfolio/src/components/Withdrawal.jsx:131-245 | the view shown matches the workflow phase (awaiting payment, processing, stage completed, qualified); when both stage flags are set the completed notice wins, and qualification overrides every flag |
| Withdrawal.RenderFailsOnlyOutsideTable | portfolio/src/components/Withdrawal.jsx:118-170 | rendering fails exactly when the payment view is due for a stage outside 1..5; the payment view shows the table's fee for the stage |
| Withdrawal.AdvancePastLastStage | portfolio/src/components/Withdrawal.jsx:88-98 | an unqualified client advanced to stage 6 by the server gets a panel that fails to render |
| Withdrawal.InitialScreen | portfolio/src/components/Withdrawal.jsx:6-15 | as mounted, the panel shows no error, no info, the pending-fees warning and the stage-1 payment form for 1000 with no instructions |
| Withdrawal.WithdrawalPanel.constructor | portfolio/src/components/Withdrawal.jsx:6-15 | the ten slots start at their initial values |
| Withdrawal.WithdrawalPanel.FetchWithdrawals | portfolio/src/components/Withdrawal.jsx:31-39 | the new slots are the step of the pending-withdrawals reply on the old ones |
| Withdrawal.WithdrawalPanel.CheckQualification | portfolio/src/components/Withdrawal.jsx:41-49 | the new slots are the step of the qualification reply on the old ones |
| Withdrawal.WithdrawalPanel.FetchStatus | portfolio/src/components/Withdrawal.jsx:51-62 | the new slots are the step of the status reply on the old ones |
| Withdrawal.WithdrawalPanel.SelectPaymentMethod | portfolio/src/components/Withdrawal.jsx:174 | the new slots are the step of the method choice |
| Withdrawal.WithdrawalPanel.SelectReceipt | portfolio/src/components/Withdrawal.jsx:219 | the new slots are the step of the file choice |
| Withdrawal.WithdrawalPanel.ClickUpload | portfolio/src/components/Withdrawal.jsx:64-70 | the click sends a request exactly when a receipt is selected, whatever the payment method, and changes no slot |
| Withdrawal.WithdrawalPanel.ReceiveUploadReply | portfolio/src/components/Withdrawal.jsx:69-84 | the new slots are the step of the upload reply |
| Withdrawal.WithdrawalPanel.ProceedToNextStage | portfolio/src/components/Withdrawal.jsx:88-98 | the new slots are the step of the advance reply |
| Withdrawal.WithdrawalPanel.CopyToClipboard | portfolio/src/components/Withdrawal.jsx:100-102 | the new slots are the step of the clipboard write |
| Withdrawal.WithdrawalPanel.ClearInfoMessage | portfolio/src/components/Withdrawal.jsx:103 | the new slots are the step of the timer firing |
| Models.MakePassword | backend/GRANDPORTFOLIOS/portfolio/models.py:57 | every encoded password carries the "pbkdf2_sha256$" tag |
| Models.SaveHashesOnlyRaw | backend/GRANDPORTFOLIOS/portfolio/models.py:54-58 | save replaces the password exactly when it is non-empty and lacks the tag, and what it stores is empty or tagged |
| Models.SaveIdempotent | backend/GRANDPORTFOLIOS/portfolio/models.py:54-58 | saving twice stores what saving once stores |
| Models.UserTypeLabel | backend/GRANDPORTFOLIOS/portfolio/models.py:29-33 | a label is found exactly for a value listed in the choices, and it is that value's label |
| Models.UserTypeChoicesAre | backend/GRANDPORTFOLIOS/portfolio/models.py:29-33 | the valid user types are 1 (admin) and 2 (client) and no other |
| Models.User.constructor | backend/GRANDPORTFOLIOS/portfolio/models.py:10 | an unsaved user holding the given username, password and fields |
| Models.User.SetPassword | backend/GRANDPORTFOLIOS/portfolio/models.py:11 | the password becomes the hash of the raw password, or an unusable password when there is none; nothing else changes |
| Models.User.Save | backend/GRANDPORTFOLIOS/portfolio/models.py:54-58 | the password becomes what save stores for the old one, and the row then holds it |
| Models.CreatedPasswordHashedOnce | backend/GRANDPORTFOLIOS/portfolio/models.py:7-13 | create_user stores a given password hashed exactly once; a user without a password gets the tagged hash of the unusable marker |
| Models.CreateUser | backend/GRANDPORTFOLIOS/portfolio/models.py:7-13 | fails with the username-required error exactly when the username is empty; otherwise a new saved user with the given username and fields and the create_user password |
| Models.CreateSuperuser | backend/GRANDPORTFOLIOS/portfolio/models.py:15-24 | a staff flag that is absent or True is required first, then a superuser flag that is absent or True, each with its own error; otherwise it is create_user with both flags set to True |
| Views.Lookup | backend/GRANDPORTFOLIOS/portfolio/views.py:35-39 | an identifier with '@' selects the users with that email, any other the users with that username |
| Views.UserTypeStrings | backend/GRANDPORTFOLIOS/portfolio/views.py:64 | the printed user type is "1" exactly for type 1 and "2" exactly for type 2; a missing type prints "None" |
| Views.ObtainToken | backend/GRANDPORTFOLIOS/portfolio/views.py:23-68 | responds only with 200, 400, 401 or 403, with a token body exactly on 200; it raises only when more than one user matches |
| Views.MissingCredentialsRefused | backend/GRANDPORTFOLIOS/portfolio/views.py:28-30 | a missing or empty username or password gets 400 before any lookup, whatever the stored users |
| Views.UnknownUserRefused | backend/GRANDPORTFOLIOS/portfolio/views.py:35-42 | an identifier no stored user has gets 401 "Invalid credentials" |
| Views.InactiveRefusedWhateverPassword | backend/GRANDPORTFOLIOS/portfolio/views.py:45-47 | an inactive user gets 403 whatever password and authenticator |
| Views.WrongPasswordLikeUnknownUser | backend/GRANDPORTFOLIOS/portfolio/views.py:51-54 | a failed authentication gets the same 401 answer as an unknown user |
| Views.SuccessfulLogin | backend/GRANDPORTFOLIOS/portfolio/views.py:60-68 | success answers 200 with the issued refresh and access tokens, the user type as Python prints it, and the first name |
| Views.SharedEmailRaises | backend/GRANDPORTFOLIOS/portfolio/views.py:35-39 | two users sharing the email logged in with make the lookup raise |
| Views.Logout | backend/GRANDPORTFOLIOS/portfolio/views.py:84-91 | 205 exactly when the body has a refresh token that is accepted; every other case is 400 "Invalid token." |
| Views.PerformCreate | backend/GRANDPORTFOLIOS/portfolio/views.py:100-103 | the created user's stored password is the save-hash of the hash of the serializer-hashed password |
| Views.ApiCreatedPasswordHashedTwice | backend/GRANDPORTFOLIOS/portfolio/views.py:100-103 | a raw password sent to the user endpoint is stored hashed twice |
| Views.ApiCreatedUserRejectsOwnPassword | backend/GRANDPORTFOLIOS/portfolio/views.py:100-103 | for a hasher that tells inputs apart, the created user's own password does not check against the stored one |
| Views.PerformCreateCorrected | backend/GRANDPORTFOLIOS/portfolio/views.py:100-101 | the stored password is the password hashed once, and the user's own raw password checks against it |
| ProtectedRoute.RendersExactlyForRole | portfolio/src/components/ProtectedRoute.jsx:22-46 | after the check the page renders exactly for a token holder of type "1" at "/Admin" or of type "2" at "/landing"; every other visitor is redirected to "/", "/Admin" or "/landing"; loading never shows |
| ProtectedRoute.WithoutRoleGoHome | portfolio/src/components/ProtectedRoute.jsx:26-44 | with no token, or with a type other than "1" and "2", the visitor is sent to "/" |
| ProtectedRoute.RoleRedirectSettles | portfolio/src/components/ProtectedRoute.jsx:31-44 | a redirect to a role's page lands on a page that then renders |
| ProtectedRoute.MountedAdminPathRedirects | portfolio/src/App.jsx:13-28 | an admin at the mounted "/admin" is redirected to "/Admin"; a client at the mounted "/landing" sees the page |
| ProtectedRoute.Guard.constructor | portfolio/src/components/ProtectedRoute.jsx:5-7 | loading, not authenticated, no user type |
| ProtectedRoute.Guard.CheckAuthentication | portfolio/src/components/ProtectedRoute.jsx:11-17 | authenticated exactly when the session token is present and non-empty; the type is the stored one; loading ends |
| ProtectedRoute.MountGuard | portfolio/src/components/ProtectedRoute.jsx:10-24 | before the check the guard shows loading; after it the settled decision |
| Services.NextIndex | portfolio/src/components/Services.jsx:38-40 | on a valid index the next one is the index plus one, round the four services |
| Services.PrevIndex | portfolio/src/components/Services.jsx:42-44 | on a valid index the previous one is the index minus one, round the four services |
| Services.NextPrevInverse | portfolio/src/components/Services.jsx:38-44 | each button undoes the other |
| Services.NextTimesRotates | portfolio/src/components/Services.jsx:38-40 | n presses of next move the index n places round the carousel |
| Services.FourNextsReturn | portfolio/src/components/Services.jsx:38-40 | four presses of next come back to the start |
| Services.Carousel.constructor | portfolio/src/components/Services.jsx:36 | the carousel starts at the first service |
| Services.Carousel.HandleNextService | portfolio/src/components/Services.jsx:38-40 | the index stays valid and becomes the next index |
| Services.Carousel.HandlePrevService | portfolio/src/components/Services.jsx:42-44 | the index stays valid and becomes the previous index |
| HomePage.FindTab | portfolio/src/pages/HomePage.jsx:183 | finds the first tab of the name when one has it, and nothing exactly when none does |
| HomePage.TabNamesDistinct | portfolio/src/pages/HomePage.jsx:11-96 | the five tab names are distinct and non-empty |
| HomePage.ContentShown | portfolio/src/pages/HomePage.jsx:183 | the login form shows exactly when it is open; otherwise the tab carrying the active name, or nothing when no tab has it |
| HomePage.ClickedTabShown | portfolio/src/pages/HomePage.jsx:162-165 | clicking tab i shows tab i |
| HomePage.ButtonsNameTabs | portfolio/src/pages/HomePage.jsx:29-81 | the Learn More and Contact Us buttons name existing tabs, the services and contact tabs |
| HomePage.Page.constructor | portfolio/src/pages/HomePage.jsx:8-9 | the page starts on the home tab with the login form closed |
| HomePage.Page.ClickTab | portfolio/src/pages/HomePage.jsx:162-165 | the tab becomes active and the login form closes |
| HomePage.Page.ClickLogin | portfolio/src/pages/HomePage.jsx:173-176 | the login form opens and no tab is active |
| HomePage.Page.LearnMore | portfolio/src/pages/HomePage.jsx:29 | the services tab becomes active; the login flag is kept |
| HomePage.Page.ContactUs | portfolio/src/pages/HomePage.jsx:81 | the contact tab becomes active; the login flag is kept |
| HomePage.LoginThenTab | portfolio/src/pages/HomePage.jsx:156-183 | after the login click the form shows and no tab is highlighted; a later tab click shows that tab and highlights it alone |
| JsText.TrimStart | portfolio/src/components/LoginForm.jsx:21-22 | what is dropped is all whitespace and line terminators, and the result does not start with one |
| JsText.TrimStartKeepsSuffix | portfolio/src/components/LoginForm.jsx:21-22 | what TrimStart keeps is a suffix of its input, so only leading characters are dropped |
| JsText.TrimEnd | portfolio/src/components/LoginForm.jsx:21-22 | what is dropped is all whitespace and line terminators, and the result does not end with one |
| JsText.TrimEndKeepsPrefix | portfolio/src/components/LoginForm.jsx:21-22 | what TrimEnd keeps is a prefix of its input, so only trailing characters are dropped |
| JsText.TrimIsCore | portfolio/src/components/LoginForm.jsx:21-22 | trim keeps a contiguous piece of its input, drops only `\s` characters around it, and neither end of the result is one |
| JsText.TrimIdempotent | portfolio/src/components/LoginForm.jsx:64-66 | trimming a value already trimmed on blur changes nothing |
| JsText.StoredValueFalsyIffEmpty | portfolio/src/components/LoginForm.jsx:34-39 | a stored value reads back falsy exactly when it was the empty string; undefined and null are stored as truthy text |
| LoginForm.AcceptedReplyEffects | portfolio/src/components/LoginForm.jsx:30-48 | a resolved login writes the four fields under their keys as stringified; it fails with the login-failed message exactly when the access token is empty, and otherwise navigates by type without an error |
| LoginForm.MissingAccessTokenStillNavigates | portfolio/src/components/LoginForm.jsx:34-41 | a reply without an access token stores "undefined", so the check passes and the admin still navigates |
| LoginForm.DestinationsByType | portfolio/src/components/LoginForm.jsx:40-44 | "/admin" exactly for type "1", "/landing" exactly for type "2", no navigation otherwise |
| LoginForm.RefusedReplyEffects | portfolio/src/components/LoginForm.jsx:49-54 | a rejected login writes nothing and navigates nowhere; the credentials message shows exactly on a 401, the generic one otherwise |
| LoginForm.PasswordInputType | portfolio/src/components/LoginForm.jsx:100 | the password shows as text exactly when visibility is on |
| LoginForm.Form.constructor | portfolio/src/components/LoginForm.jsx:8-12 | empty fields, hidden password, no error, no spinner |
| LoginForm.Form.ChangeUsername | portfolio/src/components/LoginForm.jsx:93 | the username holds the value as typed; nothing else changes |
| LoginForm.Form.ChangePassword | portfolio/src/components/LoginForm.jsx:106 | the password holds the value as typed; nothing else changes |
| LoginForm.Form.BlurUsername | portfolio/src/components/LoginForm.jsx:94 | the username holds the trimmed value; nothing else changes |
| LoginForm.Form.BlurPassword | portfolio/src/components/LoginForm.jsx:107 | the password holds the trimmed value; nothing else changes |
| LoginForm.Form.TogglePasswordVisibility | portfolio/src/components/LoginForm.jsx:60-62 | visibility flips; nothing else changes |
| LoginForm.Form.BeginSubmit | portfolio/src/components/LoginForm.jsx:15-28 | posts the trimmed fields, clears the error and shows the spinner, leaving the fields as typed |
| LoginForm.Form.FinishSubmit | portfolio/src/components/LoginForm.jsx:30-57 | navigates and writes as the settlement says, sets the settlement's error or keeps the old one, and hides the spinner in every case |
| LoginForm.Submit | portfolio/src/components/LoginForm.jsx:15-58 | a whole submit posts the trimmed typed values whether or not the fields were blurred, shows the settlement's error and ends without a spinner |
| Constants.SkipSpaces | portfolio/src/constants.js:6 | a greedy `\s*` stops at the end of the run of spaces |
| Constants.NextSemicolon | portfolio/src/constants.js:6 | a greedy `[^;]*` stops at the first ';' or the end |
| Constants.LineEnd | portfolio/src/constants.js:6 | a greedy `.*` stops at the first line terminator or the end |
| Constants.EntryAt | portfolio/src/constants.js:6 | a `csrftoken\s*=\s*([^;]*).*$` match starts with the name, its group is ';'-free, starts on a non-space and ends at a ';' or the end, and no line terminator follows it |
| Constants.EntryAtIs | portfolio/src/constants.js:6 | conversely, an entry laid out that way is matched, with its group where the layout puts it |
| Constants.LastEntrySemicolon | portfolio/src/constants.js:6 | the `.*;\s*` prefix chooses the last ';' before the line end that an entry follows, and none exactly when no ';' is followed by one |
| Constants.FirstMatch | portfolio/src/constants.js:5-8 | a match starts at or after the search position and runs to the end of the string, with the group inside it |
| Constants.TokenOfCookie | portfolio/src/constants.js:4-10 | on a cookie without line breaks: a leading entry's value, else the value of the entry after the last ';' that starts one, else "" |
| Constants.LastEntryWins | portfolio/src/constants.js:4-10 | of several entries after ';' the last one is read |
| Constants.TokenIsPlainValue | portfolio/src/constants.js:4-10 | the token is a piece of the cookie string containing no ';' |
| Constants.NoEntryGivesEmpty | portfolio/src/constants.js:4-10 | a cookie with no `csrftoken` entry gives "" |
| Constants.NothingMatches | portfolio/src/constants.js:4-10 | when neither alternative can match, the cookie string is returned whole |
| Constants.LeadingEntryWins | portfolio/src/constants.js:4-10 | a leading entry's value is the token whatever follows, line breaks included |
| Constants.LeadingEntryValue | portfolio/src/constants.js:4-10 | for "csrftoken", spaces, "=", spaces, a value, then nothing or a ';'-led rest, the token is the value |
| CsrfExamples.ExampleLongerName | portfolio/src/constants.js:4-10 | a name that only ends in "csrftoken" is no entry: "xcsrftoken=1" gives "" |
| CsrfExamples.ExampleLineBreak | portfolio/src/constants.js:4-10 | "csrftoken=a;\n" matches nothing and comes back unchanged |
| Constants.EntryAfterLastSemicolon | portfolio/src/constants.js:4-10 | the entry after a ';' is read when no ';' lies inside it, the string does not begin with an entry, and the name does not occur after it |
| Constants.LaterEntryValueAt | portfolio/src/constants.js:4-10 | an entry reached from a ';' across white space is read, whatever entries come before that ';', when the name does not occur after its value |
| CsrfExamples.ExampleMiddleEntry | portfolio/src/constants.js:4-10 | "a=1; csrftoken=xyz; b=2" gives "xyz" |
| LoginFlow.RefusalsShownAsErrors | portfolio/src/components/LoginForm.jsx:49-54 | every non-200 outcome of the token view reaches the form as an error with no navigation and no storage; the credentials message shows exactly for the view's 401 |
| LoginFlow.SuccessfulLoginLands | portfolio/src/components/LoginForm.jsx:30-44 | a successful login stores the issued token and printed type; type 1 goes to "/admin", then the guard redirects to "/Admin" and renders; type 2 lands on "/landing" and renders; other types stay put without an error |

## Left out

- **Asynchronous execution, rendering and console logging.** Each `await` is split into the
  part of the handler before the request and the part after it. The login form's submit is
  `BeginSubmit` and `FinishSubmit`; the upload is `ClickUpload`, which tests the receipt, and
  `ReceiveUploadReply`. The other withdrawal handlers change nothing before their request, so
  each is only its reply step. The model does not tie a reply event to the click that sent its
  request: a sequence of events may contain an upload reply no click sent. The JSX markup, icons, styles, the spinner component
  and `console.error` are not modelled.
- **The HTTP client and the back-end withdrawal service.**
  - `api.js` and the `/withdrawals/...` endpoints are not part of this model. Their replies
    are parameters of the handlers.
  - `API_BASE_URL` is an environment read and is left out.
- **Session storage** is a map written by the form and an `Option<string>` read by the guard.
- **The clipboard and the 2000 ms timer.** The write's outcome and the timer's firing are
  separate events; the delay itself is not modelled.
- **Django and the JWT library.** Authentication, token minting and token blacklisting are
  function parameters. Django's hasher is an abstract `digest` that includes the salt, so
  salt randomness is not modelled, nor is the random suffix of an unusable password. Creating
  a user with a keyword field the model does not know would raise a `TypeError`; that error
  path is not modelled.
- Withdrawal.UploadError: a 400 whose body is `null` would make reading `.error` throw
  inside the handler. The model treats it like a body without the field.
- Withdrawal.Step: a resolved reply always carries the field its handler reads, so a reply
  whose body is `null` cannot be expressed. In the source, reading `response.data.check_back`
  (portfolio/src/components/Withdrawal.jsx:74) would then throw after `status` and `isProcessing` are set, and the
  catch would add the upload-failed text, so the panel would be processing and show an error.
  Reading `qualified` (:44), `current_stage` (:55) or `current_stage` (:91) from such a body
  would likewise end in those handlers' catch blocks. These paths are not modelled.
- **Amount form and progress bar.** The withdrawal amount form's input and submit are not
  modelled. The bar's floating-point width is not modelled; its stage and total are.
- **Other components.** `CleintView.jsx`, `serializers.py` and `urls.py` are not part of this
  model, beyond the serializer's save that `perform_create` calls.
- **Route matching of App.jsx.** The model does not cover it; only the paths the guard is
  mounted at are used.
- Constants.TokenOfCookie: this lemma and the other CSRF properties are stated for cookie
  strings without line terminators, as `document.cookie` always is. On other strings the
  model gives the match the expression finds, and only the line-break examples cover that
  case.

- **Field values other than strings.** The reply fields of the login form are strings, or
  undefined or null when missing. JSON numbers, booleans, arrays and objects, and the strings
  `setItem` would make of them ("5", "true", "[object Object]"), are not modelled.
- Views.Logout: the `IsAuthenticated` permission gate of the logout view
  (backend/GRANDPORTFOLIOS/portfolio/views.py:82) is not modelled. It answers 401 to a request
  without a valid access token before `post` runs. The function models `post` only.
- Views.ObtainToken: the request's `username` and `password` are strings or missing. A
  non-string value, such as a number, makes the `'@' in` test at
  backend/GRANDPORTFOLIOS/portfolio/views.py:36 raise a `TypeError` and the server answer 500.
  That path is not modelled.

## Findings

| source | as written | input that shows it | evidently intended | confidence | as-written member | corrected member |
|---|---|---|---|---|---|---|
| backend/GRANDPORTFOLIOS/portfolio/views.py:100-103 | `serializer.save()` already stores the password hashed; `set_password(user.password)` then hashes that hash, and the second `save` keeps it | a user created through the endpoint with password "secret" is stored as the hash of "pbkdf2_sha256$" + digest("secret"), so logging in with "secret" fails | store the password hashed once, so the user's own password checks | not executed | Views.ApiCreatedUserRejectsOwnPassword | Views.PerformCreateCorrected |
