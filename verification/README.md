# Residential site management: a Dafny model of the app's decision logic

The app is a React Native client for running a residential site ("site" in
Turkish). It is used by an administrator (admin), a site manager (yönetici),
residents and security staff, and it has a small Express backend. Almost all
of its behaviour sits in screen event handlers. This project pulls the
decisions out of those handlers and states each one as a pure Dafny function
over explicit inputs:

- **Dues ledger.**
  - `calculateTotals` splits the residents into a paid and an unpaid total.
  - Single and bulk payment reminders on the manager screen and the admin
    screen. The two screens use different bulk filters.
  - The resident card's buttons.
- **In-memory list editing.**
  - Residents on `ManageUsersScreen`.
  - Visitors on `VisitorManagementScreen`.
  - Dues entries on `AidatPaymentScreen`.
- **Form validators.**
  - Registration, the manager form with its amount, date and IBAN patterns,
    and the resident form with its site-name lookup.
  - The announcement, emergency-report and issue-report forms.
- **Access.**
  - Credential to role dispatch, in `LoginScreen` and in the server's
    `POST /api/login` route.
  - The set of screens `App.tsx` registers for each user type.
  - The announcement list `App.tsx` keeps.
- **Visitor check-in and bank data.**
  - The QR scanner's `scanned` latch and its registered/unknown
    classification.
  - The result modal's `isLoading` and `alreadyEntered` flags.
  - The bank-transaction shape check and the amount display.

Inputs and outputs are explicit:

- Network replies, storage reads, generated ids and clock readings are
  parameters.
- Alert dialogs are returned outcome tags.
- A confirmation dialog's answer is a `Choice` (`Confirm` or `Cancel`).
- JavaScript values, truthiness and property access, which can throw on
  `null` and `undefined`, are modelled in `Js`.
- `String.prototype.trim` and `includes` are modelled in `Text`.

One module per source file, each in its own `.dfy` file:

- Shared modules: `Js`, `Text`, `Seqs` and `Types`.
- `Ledger` holds `calculateTotals`. Both expense screens contain the same
  code for it.
- The module names follow the screens: `YoneticiExpenseDetails`,
  `AdminExpenseDetails`, `ResidentCard`, `ManageUsers`, `VisitorManagement`,
  `AidatPayment`, `RegisterScreen`, `YoneticiForm`, `ResidentForm`,
  `AnnouncementScreen`, `EmergencyReport`, `ReportIssue`, `Login`, `App`,
  `BankTransactions`, `QRCodeScanner` and `QRCodeResultModal`.

Where the written description of the system and the code differ, the model
follows the code:

- **Login.** The description routes a login by the shape of the identifier
  (an '@' means an e-mail) to one of two server paths, and persists a
  session. The code compares the username and password against three
  environment pairs, first match wins. It keeps the role only in the root
  component's state.

The manager screen's reminder requests are the one place where the model
departs from the code. See `YoneticiExpenseDetails.SendBulkReminders` under
"## Left out".

## Model

| member | source | states |
|---|---|---|
| Ledger.CalculateTotals | screen/yonetici/ExpenseDetailsScreen.tsx:74-92 | The loop returns the sum of `amountDue` over the paid residents and the sum over the unpaid ones. An empty list gives 0 and 0. The admin screen has identical code (screen/admin/ExpenseDetailsScreen.tsx:63-77). |
| Ledger.TotalsPartition | screen/yonetici/ExpenseDetailsScreen.tsx:76-86 | The paid total plus the unpaid total equals the sum of `amountDue` over all residents. |
| Ledger.TotalsAreFilteredSums | screen/admin/ExpenseDetailsScreen.tsx:67-73 | The paid total is the sum over exactly the `hasPaid` residents. The unpaid total is the sum over exactly the rest. |
| Ledger.TotalsPermutationInvariant | screen/yonetici/ExpenseDetailsScreen.tsx:76-91 | Any reordering of the residents (equal multisets) gives the same totals. |
| YoneticiExpenseDetails.BulkSelection | screen/yonetici/ExpenseDetailsScreen.tsx:149 | The manager's bulk set holds exactly the residents with `!hasPaid && amountDue > 0`, each drawn from the list. |
| YoneticiExpenseDetails.BulkSelectionKeepsOrder | screen/yonetici/ExpenseDetailsScreen.tsx:149 | Selecting from a concatenation concatenates the selections, so the original order is kept. |
| YoneticiExpenseDetails.SendPaymentReminder | screen/yonetici/ExpenseDetailsScreen.tsx:115-141 | A request is made iff `amountDue != 0`, and it goes to that resident's reminder endpoint. A zero debt gives the "no debt" notice. The "sent" notice appears iff the server answers ok. |
| YoneticiExpenseDetails.RequestPaymentReminder | screen/yonetici/ExpenseDetailsScreen.tsx:95-112 | A paid resident is refused with no request. Cancelling sends nothing. A request is made iff the resident is unpaid, the manager confirms and the debt is non-zero. |
| YoneticiExpenseDetails.SendBulkReminders | screen/yonetici/ExpenseDetailsScreen.tsx:145-175 | An empty bulk set only informs. Cancel sends nothing. On confirm, each selected resident gets one request to its own endpoint, in order, so every selected resident passes the zero-debt guard. |
| AdminExpenseDetails.SeedTotals | screen/admin/ExpenseDetailsScreen.tsx:9-46 | The three seeded residents (300 unpaid, 300 paid, 300 unpaid) total 300 paid and 600 unpaid. |
| AdminExpenseDetails.BulkSelection | screen/admin/ExpenseDetailsScreen.tsx:100 | The admin bulk set holds exactly the `!hasPaid` residents, including those owing 0. |
| AdminExpenseDetails.RequestPaymentReminder | screen/admin/ExpenseDetailsScreen.tsx:79-97 | A paid resident is refused. The "sent" alert appears iff the resident is unpaid and the admin confirms. Cancelling for an unpaid resident shows nothing. |
| AdminExpenseDetails.SendBulkReminders | screen/admin/ExpenseDetailsScreen.tsx:99-115 | "Nothing to remind" appears iff every resident has paid. Otherwise confirming reminds exactly the non-empty bulk set, once each and in order. |
| AdminExpenseDetails.ManagerSelectionNarrowsAdmin | screen/admin/ExpenseDetailsScreen.tsx:100 | The manager bulk set is the admin bulk set filtered further to `amountDue > 0`. |
| AdminExpenseDetails.SelectionsAgreeIff | screen/admin/ExpenseDetailsScreen.tsx:100 | The two screens select the same residents iff no unpaid resident owes 0 or less. |
| AdminExpenseDetails.ZeroDueDiffers | screen/admin/ExpenseDetailsScreen.tsx:99-112 | An unpaid resident owing 0 is reminded by the admin screen. The manager screen reports nothing to remind for the same resident. |
| ResidentCard.Render | components/ResidentCard.tsx:59-76 | The "(Ödendi)" label shows iff `hasPaid`. The request button shows iff the manager's bulk predicate holds. The call button always shows. |
| ResidentCard.RequestButtonIffBulkSelected | components/ResidentCard.tsx:67 | A card shows the request button iff its resident is in the manager's bulk set. |
| ResidentCard.HandleRequestPayment | components/ResidentCard.tsx:14-30 | `onRequestPayment` receives the unchanged resident on confirm, and nothing happens on cancel. |
| ResidentCard.HandleCall | components/ResidentCard.tsx:32-47 | `onCall` receives exactly the resident's contact number on confirm, and nothing happens on cancel. |
| ResidentCard.ConfirmedCardRequestPosts | components/ResidentCard.tsx:17-27 | Confirming on a card whose request button shows, and then on the screen, posts a reminder for that resident. |
| ManageUsers.EditRecords | screen/admin/ManageUsersScreen.tsx:35-41 | Editing keeps the length, the order and every id. Only records with the edited id change, and they take the form's values. |
| ManageUsers.FormCompleteIsTrimCheck | screen/admin/ManageUsersScreen.tsx:30 | The form check holds iff the trimmed first name, last name, block and phone number are non-empty and `apartmentNo` is non-empty. |
| ManageUsers.Submit | screen/admin/ManageUsersScreen.tsx:29-61 | Rejection happens iff a trimmed required field is blank or `apartmentNo` is empty, and it changes nothing. Success clears the form and leaves edit mode. Adding appends exactly one record and keeps the earlier ones. Editing replaces the list by `EditRecords` for the edited id. |
| ManageUsers.SaveEditPreservesIds | screen/admin/ManageUsersScreen.tsx:36-40 | A successful edit keeps the list's length and ids. |
| ManageUsers.StartEdit | screen/admin/ManageUsersScreen.tsx:63-71 | Starting an edit loads every text field of the record into the form, and the apartment number as its decimal text. It enters edit mode on that record and leaves the list alone. |
| ManageUsers.ApartmentTextReadsBack | screen/admin/ManageUsersScreen.tsx:68 | The apartment text loaded by an edit is all digits and denotes the record's non-negative apartment number. |
| ManageUsers.EditRoundTrip | screen/admin/ManageUsersScreen.tsx:29-71 | Loading a record and saving it unchanged leaves the resident list unchanged. |
| ManageUsers.Delete | screen/admin/ManageUsersScreen.tsx:73-82 | Cancel changes nothing. Confirm removes exactly the records with that id and keeps the rest. |
| ManageUsers.DeleteKeepsOrder | screen/admin/ManageUsersScreen.tsx:79 | Deletion distributes over concatenation, so the survivors keep their order. |
| ManageUsers.BlankApartmentAccepted | screen/admin/ManageUsersScreen.tsx:30 | A whitespace-only apartment number passes validation, because it is the one field not trimmed. |
| VisitorManagement.AddVisitor | screen/resident/VisitorManagementScreen.tsx:20-39 | Rejection happens iff a trimmed name, purpose or resident is blank, and it changes nothing. Success appends one visitor with the fields verbatim and no exit time, and clears the inputs. |
| VisitorManagement.NewVisitorCanExit | screen/resident/VisitorManagementScreen.tsx:57-63 | A newly added visitor is offered the exit action. |
| VisitorManagement.MarkExit | screen/resident/VisitorManagementScreen.tsx:41-49 | Length and order are kept. Only visitors with the given id get the exit time, and all else stays. |
| VisitorManagement.MarkExitUnknownId | screen/resident/VisitorManagementScreen.tsx:42-47 | An unknown id leaves the list unchanged. |
| VisitorManagement.MarkExitClosesAction | screen/resident/VisitorManagementScreen.tsx:41-63 | After `markExit`, the matching visitors are no longer offered the exit action. |
| AidatPayment.ToPayment | screen/resident/AidatPaymentScreen.tsx:35-40 | A fetched record becomes one payment with the same id, amount and due date. Its status is 'Ödendi' iff `hasPaid`, else 'Ödenmedi'. |
| AidatPayment.FetchPayments | screen/resident/AidatPaymentScreen.tsx:17-51 | Loading ends false on every path. The list is filled iff the resident id is stored and the answer is ok. The 'ID not found' alert appears iff storage yields no id. The fetch-failed alert appears iff a stored id gets a non-ok answer. The crash alert appears iff storage, the request or the parse throws. |
| AidatPayment.FetchShowsIffNoAlert | screen/resident/AidatPaymentScreen.tsx:17-51 | A load shows the entry iff it raises no alert. Otherwise the list stays empty. |
| AidatPayment.FetchedEntryOffersPayIffUnpaid | screen/resident/AidatPaymentScreen.tsx:33-111 | The entry loaded from a record offers "Öde" iff the record is unpaid. |
| AidatPayment.MarkAsPaid | screen/resident/AidatPaymentScreen.tsx:85-90 | Matching entries become 'Ödendi' with id, amount and due date kept. All other entries are unchanged. |
| AidatPayment.MarkAsPaidIdempotent | screen/resident/AidatPaymentScreen.tsx:86-88 | Marking twice is the same as marking once. |
| AidatPayment.MarkAsPaidClosesPay | screen/resident/AidatPaymentScreen.tsx:111-115 | After marking, the matching entries no longer offer the pay button, which is shown only for 'Ödenmedi'. |
| AidatPayment.HandlePay | screen/resident/AidatPaymentScreen.tsx:55-83 | A request is sent iff a resident id is stored. The list changes, by `markAsPaid`, only on an ok answer. Success is reported iff both hold. |
| RegisterScreen.ValidateForm | screen/RegisterScreen.tsx:17-31 | The checks run in order: required fields, then an e-mail containing '@' and '.', then a password of at least 6 characters. Each error is reported iff every earlier check passed and this one fails. |
| RegisterScreen.EmailCheckIgnoresOrder | screen/RegisterScreen.tsx:22-25 | '.@' passes the e-mail check, because position and order are not checked. |
| RegisterScreen.Endpoint | screen/RegisterScreen.tsx:38-41 | Role 'yonetici' selects the manager endpoint. Every other role, '' included, selects the resident endpoint. |
| RegisterScreen.Payload | screen/RegisterScreen.tsx:43-50 | The payload's keys are the common and role-specific ones. Role-specific values override common ones, and the other common values are kept. |
| RegisterScreen.HandleRegister | screen/RegisterScreen.tsx:33-76 | A failed validation sends nothing. Otherwise the request goes to `Endpoint(role)` with `Payload`. Registration succeeds iff the status is 201 and the body parses. The navigation target mirrors the role. The connection error shows iff there is no reply, the body does not parse, or a non-201 body is `null`, so that reading `message` throws into the catch. |
| RegisterScreen.RefusalMessage | screen/RegisterScreen.tsx:63-75 | A non-201 answer with a `null` body gives the connection error. Any other body is refused. The refusal shows the server's message when truthy, else the default text. |
| RegisterScreen.NullBodyIsConnectionError | screen/RegisterScreen.tsx:63-75 | A valid form answered with 400 and the body `null` ends in the connection-error alert, not the refusal alert. |
| YoneticiForm.LeadingDigits | components/forms/YoneticiForm.tsx:34 | The scanner's digit run is maximal: all digits, followed by a non-digit or the end. |
| YoneticiForm.AmountMatchesIffShape | components/forms/YoneticiForm.tsx:34 | The amount scanner accepts exactly one or more digits, optionally followed by '.' and 1–2 digits. |
| YoneticiForm.AmountRejections | components/forms/YoneticiForm.tsx:34 | '-5', '.5', '5.' and '5.123' are rejected. '300', '12.5' and '0.75' are accepted. |
| YoneticiForm.DateMatchesIffShape | components/forms/YoneticiForm.tsx:39 | The date scanner accepts exactly 4 digits, '-', 2 digits, '-', 2 digits. |
| YoneticiForm.DateHasNoRangeCheck | components/forms/YoneticiForm.tsx:39 | '2024-13-45' is accepted, because there is no range check. |
| YoneticiForm.IbanAcceptedShape | components/forms/YoneticiForm.tsx:44 | An accepted IBAN is 5 to 34 characters long and has no lowercase letter. |
| YoneticiForm.IbanCheckDigitsNotVerified | components/forms/YoneticiForm.tsx:44 | 'TR00123' is accepted: the ISO 13616 mod-97 check digits are not verified. |
| YoneticiForm.Validate | components/forms/YoneticiForm.tsx:28-49 | Six fields are required and `block` is not. Then come the amount, date and IBAN patterns in order. Each error is reported iff every earlier check passes and its own check fails. `None` means all checks pass. |
| YoneticiForm.SubmitPayload | components/forms/YoneticiForm.tsx:52-63 | The payload has exactly the eight keys. `iban` is renamed `IBAN`, and `block` is forwarded even when empty. |
| YoneticiForm.SubmitNotGated | components/forms/YoneticiForm.tsx:52-63 | A form that fails its own validation is still submitted through registration. |
| ResidentForm.FetchSiteName | components/forms/ResidentForm.tsx:28-52 | A trimmed-blank manager id makes no request and changes nothing. Otherwise loading ends false. Only an ok answer sets the site name, and any failure clears it. |
| ResidentForm.HandleSubmit | components/forms/ResidentForm.tsx:54-71 | A submission is made iff all six required fields are non-empty, without trimming. `block` becomes undefined iff it is whitespace-only, and is otherwise forwarded verbatim. |
| ResidentForm.FailedLookupBlocksSubmit | components/forms/ResidentForm.tsx:41-58 | A failed lookup clears the site name, so the next submit is rejected. |
| ResidentForm.WhitespaceValuesAccepted | components/forms/ResidentForm.tsx:55 | Single-space values pass the required check. |
| AnnouncementScreen.PickFile | screen/admin/AnnouncementScreen.tsx:44-57 | A picked file replaces the selection. A missing or empty name falls back to 'Seçilen dosya'. Cancelling changes nothing. |
| AnnouncementScreen.MediaUrl | screen/admin/AnnouncementScreen.tsx:90 | `mediaUrl` is the file's uri when a file with a non-empty uri is selected, else null. |
| AnnouncementScreen.Send | screen/admin/AnnouncementScreen.tsx:60-109 | A blank message is rejected first, then a blank block, with no effects. Valid input calls `onAddAnnouncement(message)` and then posts. Success clears message, block and file. Failure or no connection keeps them. |
| AnnouncementScreen.SendRejectsIffBlank | screen/admin/AnnouncementScreen.tsx:62-72 | A validation alert appears iff the message or the block is whitespace only. |
| AnnouncementScreen.PickedUriIsSent | screen/admin/AnnouncementScreen.tsx:44-92 | The uri of a picked file is the `mediaUrl` of the request. |
| AnnouncementScreen.CallbackPrecedesPost | screen/admin/AnnouncementScreen.tsx:74-92 | For valid input the app callback runs exactly once, before the request, whatever the request's fate. |
| EmergencyReport.Send | screen/resident/EmergencyReportScreen.tsx:13-27 | Rejection happens iff the type or the priority is empty. Otherwise the report is unconditional. Its type is the custom text for 'Diğer', else the chosen type. Priority and description are verbatim. |
| EmergencyReport.EmptyTypeReportedIff | screen/resident/EmergencyReportScreen.tsx:13-27 | For every input, a report with an empty type goes out iff 'Diğer' is chosen with empty custom text and a priority is set. |
| EmergencyReport.CustomTextOnlyForOther | screen/resident/EmergencyReportScreen.tsx:14-19 | The custom text never decides between rejection and report. For any type other than 'Diğer' it does not change the outcome. |
| EmergencyReport.OtherWithEmptyTextAccepted | screen/resident/EmergencyReportScreen.tsx:14-19 | 'Diğer' with empty custom text is accepted and reports an empty type. |
| ReportIssue.Report | screen/resident/ReportIssueScreen.tsx:21-30 | Rejection happens iff the description is empty, and it changes nothing. Success clears the description and the image. |
| ReportIssue.NoRepeatReport | screen/resident/ReportIssueScreen.tsx:21-30 | Reporting again from the cleared form is rejected. |
| ReportIssue.WhitespaceDescriptionAccepted | screen/resident/ReportIssueScreen.tsx:22 | A description of spaces only is accepted, because there is no trim. |
| Login.Dispatch | screen/LoginScreen.tsx:17-25 | The first pair that matches, in the order admin, resident, security, selects the role. A role needs both its username and its password to match. There is no role iff no pair matches. |
| Login.ClientLogin | screen/LoginScreen.tsx:15-26 | The user type is set to a role whose pair matches and for which no earlier pair matches. 'Hatalı giriş' is shown iff no pair matches. |
| Login.ParseUserType | screen/LoginScreen.tsx:8 | Exactly 'admin', 'resident' and 'security' are user types. |
| Login.UserTypeRoundTrip | api/routes/user.js:22-26 | The `userType` string the server sends reads back as the role it was sent for. |
| Login.ServerLogin | api/routes/user.js:18-30 | The first matching environment pair's `userType` is returned. If no pair matches, the answer is 401 with 'Hatalı kullanıcı adı veya şifre'. |
| Login.ServerAgreesWithClient | api/routes/user.js:21-28 | For a body carrying both fields, the server's decision equals the login screen's. |
| Login.EarlierClauseShadows | screen/LoginScreen.tsx:17-22 | When two roles share a pair, the later role never logs in, on either side. |
| Login.UnsetPairAdmitsEmptyBody | api/routes/user.js:19-22 | A role with unset variables never logs in on the screen. The server, however, admits a body with both fields missing. |
| App.Screens | App.tsx:36-83 | With no user type only Login is registered. QRCodeScanner is registered for admin and security, never for resident. Announcement is registered only for admin. Each role's set is exactly the screens App.tsx registers for it: six for admin, four for resident, and two for security. |
| App.RoleScreensDisjoint | App.tsx:47-83 | Apart from the scanner, no screen is registered for two roles. |
| App.Step | App.tsx:22-31 | A user type, once set, never changes and never returns to null. An announcement is appended at the end only when the Announcement screen is registered. |
| App.LoginIsPermanent | App.tsx:22-42 | Over any sequence of callbacks, a set user type stays as it is: there is no logout. |
| App.AnnouncementsOnlyGrow | App.tsx:29-31 | The announcement list only grows, and the earlier list stays a prefix. |
| App.NonAdminSessionKeepsAnnouncements | App.tsx:29-67 | A session that never becomes admin never changes the announcement list. |
| App.ResidentSeesOnlySeeds | App.tsx:23-67 | A resident session shows exactly the three seeded announcements. |
| BankTransactions.ItemCheck | screen/yonetici/BankTransactionsScreen.tsx:18 | The per-item test throws iff the item is null or undefined. It passes iff the item is an object with truthy `id`, `date` and `description` and a defined `amount`. |
| BankTransactions.Every | screen/yonetici/BankTransactionsScreen.tsx:18 | `every` passes iff every item passes. |
| BankTransactions.EveryStopsAtFirstMiss | screen/yonetici/BankTransactionsScreen.tsx:18 | A failing or throwing `every` reports the verdict of the first item that did not pass, and all items before it passed. |
| BankTransactions.FetchTransactions | screen/yonetici/BankTransactionsScreen.tsx:9-33 | The list is replaced iff the answer is ok, declares JSON, and parses to an array whose every item passes. Any other answer keeps the list. A connection alert appears iff the fetch fails, the JSON does not parse, or an item read throws. |
| BankTransactions.EmptyArrayAccepted | screen/yonetici/BankTransactionsScreen.tsx:18 | An empty array is accepted. |
| BankTransactions.JsonTypeAnywhereInHeader | screen/yonetici/BankTransactionsScreen.tsx:14 | Any content-type containing 'application/json' is considered. |
| BankTransactions.ShortCircuitHidesLaterNull | screen/yonetici/BankTransactionsScreen.tsx:18 | A null item after a failing item is never read. |
| BankTransactions.AmountOnlyNeedsPresence | screen/yonetici/BankTransactionsScreen.tsx:18 | A zero or null amount passes the item test. |
| BankTransactions.ShowAmount | screen/yonetici/BankTransactionsScreen.tsx:45-48 | The '+' prefix and green colour appear iff `amount >= 0`. The label ends in ' ₺'. |
| BankTransactions.ShowAmountRoundTrip | screen/yonetici/BankTransactionsScreen.tsx:48 | The shown label reads back to the amount, so 0 shows as '+0 ₺'. |
| QRCodeScanner.CheckQRCode | QRCodeScannerScreen.tsx:33-41 | The check yields `response.data.isRegistered` as JavaScript reads it: the field of an object, and `undefined` for a string, number, boolean or array answer. If the request throws, or the answer is `null` or `undefined` so that the read throws, it yields false. |
| QRCodeScanner.Classify | QRCodeScannerScreen.tsx:29 | The status is 'Kayıtlı Ziyaretçi' iff the check's result is truthy, else 'Bilinmeyen Ziyaretçi'. |
| QRCodeScanner.Deliver | QRCodeScannerScreen.tsx:25-31 | A scan sets `scanned`, stores the payload, classifies it and opens the modal. Once `scanned` is set, the camera has no handler and nothing changes (components/CameraSection.tsx:14). |
| QRCodeScanner.Close | QRCodeScannerScreen.tsx:63 | Closing only hides the modal. |
| QRCodeScanner.FirstScanSticks | QRCodeScannerScreen.tsx:26-31 | After the first handled scan, `scanned`, the payload and the status never change. |
| QRCodeScanner.FailedCheckOffersNoConfirm | QRCodeScannerScreen.tsx:36-40 | A check that throws leaves no confirm button in the modal. |
| QRCodeScanner.TruthyStringCountsAsRegistered | QRCodeScannerScreen.tsx:29-36 | An `isRegistered` of "false" (a string) classifies as registered. |
| QRCodeResultModal.Render | components/QRCodeResultModal.tsx:56-79 | Confirm shows iff the status is registered and `alreadyEntered` is false. It is pressable iff not loading. The payload shows only for registered visitors. Close always shows. |
| QRCodeResultModal.BeginConfirm | components/QRCodeResultModal.tsx:22 | `isLoading` is true while the request is in flight. |
| QRCodeResultModal.FinishConfirm | components/QRCodeResultModal.tsx:21-50 | `isLoading` ends false on every outcome. `alreadyEntered` becomes true only when the answer flags it, and is never reset. A failed request or a null body gives the failure alert. |
| QRCodeResultModal.PressConfirm | components/QRCodeResultModal.tsx:62-66 | A press has an effect iff the button is shown and enabled. |
| QRCodeResultModal.AlreadyEnteredLatches | components/QRCodeResultModal.tsx:19-33 | Once set, `alreadyEntered` survives every reply. |
| QRCodeResultModal.PriorEntryHidesConfirm | components/QRCodeResultModal.tsx:32-62 | After the server reports a prior entry, the confirm button disappears. |
| Text.TrimEmptyIffBlank | screen/admin/ManageUsersScreen.tsx:30 | `s.trim() === ''` holds exactly when every character of `s` is white space. |
| Text.IncludesIffWindow | screen/yonetici/BankTransactionsScreen.tsx:14 | `includes` finds `t` iff some window of `s` equals `t`. |
| Text.NatToStringRoundTrip | screen/yonetici/BankTransactionsScreen.tsx:48 | Reading back the decimal rendering of a number gives the number. |
| Js.Member | QRCodeScannerScreen.tsx:36 | Property access throws iff the value is null or undefined. On an object it yields the field, or undefined if absent. |
| Seqs.FilterConcat | screen/admin/ManageUsersScreen.tsx:79 | `filter` distributes over concatenation, so kept elements keep their order. |

## Left out

- **HTTP, storage and the server.**
  - `fetch`, `axios` and `AsyncStorage` are not modelled. Their outcomes are
    parameters.
  - The server's bootstrap (`api/server.js`), user seeding
    (`api/createUser.js`) and the database-backed `/register` route are not
    part of this model.
- **Side effects on screen.** Alert texts, console logging and navigation
  calls are outcome tags.
- **Ids and clocks.** `Math.random` ids, `new Date()`, `toLocaleString` and
  `toISOString` are parameters, and generated ids are assumed fresh.
- **Numbers.**
  - `Number(...)` conversion of typed text is a parameter.
  - Amounts are whole integers, with no fractions, NaN or floating point.
- **Regular expressions.** The three manager-form patterns are written out
  as character scanners. The JavaScript regex engine is not modelled.
- **Strings.**
  - A string is a sequence of characters. UTF-16 code-unit lengths are not
    modelled.
  - `trim` strips the ASCII white space, NO-BREAK SPACE, the byte-order mark
    and the two Unicode line separators. The other Unicode space separators
    are not modelled.
- **Timing.**
  - React's asynchronous state batching is collapsed into one step per
    handler, so the scanner's intermediate state between `setScanned` and
    the awaited check is not represented.
  - The 3-second `setTimeout` before the modal's success alert is not
    modelled.
- **Devices.** The camera, permissions, document and image pickers, and QR
  rendering are not modelled. A picker's result is an input.
- **Other screens and components.**
  - The QR scanner's manual `saveQRCode` only posts the typed text and logs
    the outcome; it changes no state.
  - Presentation-only screens and components are not part of this model:
    the home screens, the notification screen, the task and resident-detail
    colour mappings, the detail modal, the expense card, the header and the
    login button. The admin screen's seeded expense list is only rendered
    and is not modelled.
  - The unvalidated admin bank screen and the token-fetching user-management
    screen are not part of this model either.
- **Failures inside failure paths.**
  - `response.text()` failing inside the announcement and transaction error
    paths would turn a server-error alert into a connection alert. This is
    not modelled.
- YoneticiExpenseDetails.SendPaymentReminder: a non-ok reply always gives
  the reminder-failed alert. The `await response.text()` in that branch
  (screen/yonetici/ExpenseDetailsScreen.tsx:134) could reject and turn it
  into the 'Sunucuya ulaşılamadı.' alert. The reply's body is not modelled.
- YoneticiExpenseDetails.SendBulkReminders: the manager screen posts to
  `/api/residents/{_id}/reminder` (screen/yonetici/ExpenseDetailsScreen.tsx:126).
  It reads the backend's `_id` key, which the declared `Resident` type does not
  have. The card path copies `_id` into `id` (line 209). The bulk path passes
  the fetched documents unchanged (lines 149 and 167-169). The model's
  `Resident.id` stands for `_id` on both paths. A document whose `_id` and `id`
  differ is not modelled.
- BankTransactions.ShowAmount: only integer amounts are rendered. An item
  whose `amount` is `null`, a string or a fraction passes the shape check
  (see `AmountOnlyNeedsPresence`). Its `+null ₺`-style text is not modelled.
- ResidentForm.FetchSiteName: a successful answer whose `siteName` is
  missing is read as the empty string, not as `undefined`. Both are falsy,
  so the next submit is rejected either way.
