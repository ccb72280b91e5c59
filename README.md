# donna and senbara-forms: a Dafny model of the request core

donna is a personal CRM served over HTTP: journal entries, contacts, debts and
activities, each kept under the namespace of the signed-in user's e-mail
address. senbara-forms is its later revision. This project models, in
Dafny, the parts of both revisions that carry rules of their own:

- **The authorization gate.** `authorize` reads the `refresh_token` and
  `id_token` cookies, verifies the ID token with the OpenID Connect
  provider and, when that fails, renews it once with the refresh-token
  grant (section 6 of RFC 6749). In the current revision the renewed token
  is verified again. `HandleAuthorize` signs in (code exchange, cookies)
  and signs out (expired cookies). The gate also builds the logout URL of
  section 2 of OpenID Connect RP-Initiated Logout 1.0, with
  `id_token_hint` and `post_logout_redirect_uri`. The provider is an
  oracle: a `verifier` function, a refresh grant and a code grant, plus a
  log of the calls made to it (`Oidc.IdentityProvider`). `Authn` is the
  current revision and `LegacyAuthn` the earlier one.
- **The handlers' form-validation chains and redirect targets**, for
  journal entries and contacts in the earlier backend (`BackendRoot`), the
  earlier controllers (`DonnaContacts`, `DonnaRoot`) and the current
  controllers (`ContactsController`, `SenbaraRoot`).
  - The checks are `strings.TrimSpace` blankness, `strconv.Atoi`, and
    the library's address and date parsers, which become the oracles in
    `Forms.Parsers`.
  - Each check is in `Forms`; `GoLib` holds TrimSpace, Atoi and decimal
    formatting.
  - A response is a `ResponseWriter` that records the effects written to
    it (`Http`).
- **The current revision's database layer** (`Store`).
  - The database is four per-kind tables keyed by namespace.
  - Begin takes a snapshot, Rollback restores it and Commit drops it.
  - Every statement is logged, and an oracle `fails` says which statement
    fails after which log.
  - On this sit the contact persister (`ContactPersister`) and the
    user-data persister (`UserDataPersister`).
  - The earlier revision's persister (`DonnaPersister`) only records the
    calls made to it, since its SQL is not part of this model.
- **User-data export, import and delete-all.**
  - `UserDataExport`, `UserDataPersister` and `UserDataController` model
    what each does.
  - `UserDataModels` holds the tagged record types.
- **`TruncateText`.** This is the template helper, in its two suffix
  variants (`Templates`).
- **The embedded migrations.** This is `Asset`, `AssetNames` and
  `AssetDir` over `_bindata` and `_bintree` (`Migrations`).

A handler is modelled in one of two ways:

- as a method on the response writer, the provider and the database, whose
  `ensures` ties every effect and every table to a specification function of
  the inputs;
- as a method whose "Means" lemmas state, in both directions, when that
  function answers 422, 500 or a redirect, and where the redirect points.

Each revision's files are modelled on their own terms: the snapshots of the
two revisions do not compile together. For example, the current controllers
call a three-result `authorize` whose definition is not part of this model.
Those handlers take its result as an `Authorization` input.

## Model

| member | source | states |
|---|---|---|
| Authn.Decide | senbara-forms/pkg/controllers/authn.go:31-140 | A language that cannot be matched is a 500. A missing cookie is a 307 with a 302 to the login page and no provider call; any other cookie error is a 401. The provider is asked at most three things: verify, refresh once, verify the renewed token. Cookies are written only after the renewed token verifies. With both cookies: a verified token is decided on its claims with one call and nothing written; a rejected one is renewed. It redirects with 200 exactly when the refresh fails, returns no ID token or the new token is rejected. A renewed token that verifies writes the new cookies and is decided on its claims. An unverified e-mail is a 401 without a redirect. The request proceeds exactly when the last verified token has claims with a verified e-mail and the issuer parses; then the status is 200 and the user is that e-mail, with its logout URL. |
| Authn.Authorize | senbara-forms/pkg/controllers/authn.go:31-140 | The method writes exactly Decide's effects, makes exactly its provider calls and returns its result and status. |
| Authn.SignInEffects | senbara-forms/pkg/controllers/authn.go:195-251 | A failed exchange is a 401. Otherwise the refresh cookie is written first, even when empty; a missing ID token then gives a 401 with that cookie already set. With an ID token, both cookies are set and the sign-in page is rendered. |
| Authn.SignOutEffects | senbara-forms/pkg/controllers/authn.go:157-193 | Sign-out expires both cookies, then renders the redirect page. |
| Authn.HandleAuthorize | senbara-forms/pkg/controllers/authn.go:147-252 | A localization failure is a 500 with no provider call. No `code` means sign-out with no provider call. A code is exchanged exactly once and answered as SignInEffects says. |
| Authn.Refusal | senbara-forms/pkg/controllers/root.go:130-136 | An authorization error is answered with the failure at the status authorize chose; otherwise nothing. |
| Authn.Gate | senbara-forms/pkg/controllers/userdata.go:21-30 | A handler proceeds exactly when authorize neither failed nor redirected. It writes authorize's effects followed by the refusal. |
| LegacyAuthn.Decide | pkg/backend/authn.go:24-119 | A missing cookie redirects with no provider call; any other cookie error is returned with nothing written. There are at most two provider calls, and only the cookie's token is ever verified. A renewal that yields an ID token writes both cookies and then panics. A renewal without one still stores a non-empty new refresh token, then redirects. With both cookies: a verified token takes exactly one call and is decided on its claims, proceeding exactly when the e-mail is verified and the issuer parses; a rejected one is always renewed. A renewal that fails or yields no ID token redirects; every renewal that yields one panics. A signed-in user is the verified e-mail of the cookie's token. |
| LegacyAuthn.RenewalPanicsHereButNotInCurrentRevision | pkg/backend/authn.go:49-95 | On one renewal, the earlier revision reads claims from the failed verification and panics, while the current revision signs the user in. |
| LegacyAuthn.Authorize | pkg/backend/authn.go:24-119 | The method writes exactly Decide's effects, makes exactly its calls and returns its outcome. |
| LegacyAuthn.HandleAuthorize | pkg/backend/authn.go:126-210 | Sign-out without a code; otherwise one exchange, with the same cookie and 401 rules as the current revision. |
| Oidc.IdentityProvider.constructor | pkg/backend/authn.go:49-53 | The provider starts with no calls and the given oracles. |
| Oidc.IdentityProvider.Verify | senbara-forms/pkg/controllers/authn.go:61 | Returns the verifier's answer and logs exactly one Verify call. |
| Oidc.IdentityProvider.Refresh | senbara-forms/pkg/controllers/authn.go:63-65 | Returns the refresh grant's answer and logs exactly one Refresh call. |
| Oidc.IdentityProvider.Exchange | senbara-forms/pkg/controllers/authn.go:196 | Returns the code grant's answer and logs exactly one exchange. |
| Oidc.LogoutUrl | senbara-forms/pkg/controllers/authn.go:122-139 | The logout URL is the issuer's path plus `oidc/logout`. It keeps the issuer's other query keys, and has `id_token_hint` set to the token and `post_logout_redirect_uri` set to the redirect. |
| Oidc.FromClaims | senbara-forms/pkg/controllers/authn.go:112-139 | Success holds exactly when the claims exist, the e-mail is verified and the issuer parsed. An unverified e-mail is exactly the EmailNotVerified error. On success the user is the claims' e-mail and the logout URL; on failure there is no user. |
| Http.SessionCookie | senbara-forms/pkg/controllers/authn.go:88-106 | Session cookies are HttpOnly, Secure, SameSite=Strict and path "/", with the given name, value and expiry. |
| Http.ExpiredCookie | senbara-forms/pkg/controllers/authn.go:161-172 | A cleared cookie has an empty value and a negative MaxAge. |
| Http.FormValue | senbara-forms/pkg/controllers/contacts.go:110 | A body field wins over the query; a key only in the query reads as its query value; a key in neither reads as "". |
| Http.QueryValue | senbara-forms/pkg/controllers/authn.go:195 | A missing query key reads as "". |
| Http.RenderEffects | senbara-forms/pkg/controllers/contacts.go:280-289 | A render that fails is followed by one `http.Error` call with 500. |
| Http.ResponseWriter.constructor | senbara-forms/pkg/controllers/root.go:129 | A fresh response holds no effects. |
| Http.ResponseWriter.Redirect | senbara-forms/pkg/controllers/root.go:161 | Appends exactly one redirect. |
| Http.ResponseWriter.SetCookie | senbara-forms/pkg/controllers/authn.go:88 | Appends exactly one cookie. |
| Http.ResponseWriter.Error | senbara-forms/pkg/controllers/contacts.go:114 | Appends exactly one error reply. |
| Http.ResponseWriter.WriteHeader | senbara-forms/pkg/controllers/root.go:142 | Appends exactly one status. |
| Http.ResponseWriter.SetHeader | senbara-forms/pkg/controllers/userdata.go:32-33 | Appends exactly one header. |
| Http.ResponseWriter.Render | senbara-forms/pkg/controllers/contacts.go:280-289 | Appends one render and reports whether it succeeded. |
| Http.ResponseWriter.RenderOrFail | senbara-forms/pkg/controllers/contacts.go:280-289 | Renders, then answers a failed render with a 500. |
| Http.ResponseWriter.WriteJson | senbara-forms/pkg/controllers/userdata.go:42-77 | Appends the encoded record exactly when the write does not fail. |
| GoLib.WrapInt32 | pkg/backend/root.go:488 | `int32(x)` keeps x when it is in range and is congruent to x modulo 2^32. |
| GoLib.TrimLeft | senbara-forms/pkg/controllers/contacts.go:110 | The result is a suffix whose dropped prefix is all white space and whose first character is not white space. |
| GoLib.TrimRight | senbara-forms/pkg/controllers/contacts.go:110 | The result is a prefix whose dropped suffix is all white space and whose last character is not white space. |
| GoLib.TrimSpace | senbara-forms/pkg/controllers/contacts.go:110 | The result is a contiguous infix of the input, surrounded only by white space, with no white space at either end. |
| GoLib.BlankIsTrimmedEmpty | senbara-forms/pkg/controllers/contacts.go:110 | A value is blank exactly when TrimSpace makes it empty. |
| GoLib.AtoiMeans | senbara-forms/pkg/controllers/contacts.go:321 | An accepted string is non-empty and has no white space, and its value is within the 64-bit range. |
| GoLib.AtoiCanonical | senbara-forms/pkg/controllers/contacts.go:321 | An accepted string with no '+', no leading zero and not "-0" is exactly `%v` of its value, the converse of AtoiFormatDecimal. |
| GoLib.FormatNatOfDigits | pkg/backend/root.go:497 | A digit string without a leading zero is what `%v` writes for its value. |
| GoLib.AtoiImpliesNotBlank | senbara-forms/pkg/controllers/contacts.go:312-327 | A value Atoi accepts is never blank. |
| GoLib.FormatNat | pkg/backend/root.go:497 | `%v` of a natural number is a non-empty digit string with that value. |
| GoLib.FormatDecimal | pkg/backend/root.go:497 | `%v` of an integer is non-empty and starts with '-' exactly when the integer is negative. |
| GoLib.AtoiFormatDecimal | pkg/backend/root.go:497 | Atoi reads `%v` of any 64-bit integer back to itself. |
| Forms.IntOf | pkg/backend/root.go:488 | The stored id or rating is the Atoi value narrowed to int32. |
| Forms.IdValidIsAtoi | senbara-forms/pkg/controllers/contacts.go:188-204 | The id checks pass exactly when Atoi accepts the value. |
| Forms.JournalValidMeans | pkg/backend/root.go:452-486 | The journal checks pass exactly when title and body are not blank and the rating is an integer. |
| Forms.Require | senbara-forms/pkg/controllers/contacts.go:110-115 | One check: it goes on exactly when the check passes, and otherwise writes one 422. |
| Forms.RequireId | senbara-forms/pkg/controllers/contacts.go:312-327 | The id checks in order, with one 422 for the first failure. |
| Forms.RequireJournal | pkg/backend/root.go:452-486 | Title, body, rating present, then rating numeric, in that order; one 422 for the first failure. |
| Forms.RequireJournalUpdate | pkg/backend/root.go:624-676 | The id first, then the journal checks. |
| Forms.RequireBackendContact | pkg/backend/root.go:843-873 | First name, last name and pronouns must not be blank; nickname and e-mail are unchecked. |
| Forms.RequireContact | senbara-forms/pkg/controllers/contacts.go:110-146 | First name, last name, e-mail address, pronouns, in that order; one 422 for the first failure. |
| Forms.RequireContactUpdate | senbara-forms/pkg/controllers/contacts.go:312-382 | The id checks, the four contact checks, then a blank or parseable birthday. |
| Forms.LoginRefusal | pkg/controllers/root.go:113-122 | An authorization error is exactly one 401; otherwise nothing is written. |
| Forms.ViewPath | pkg/backend/root.go:497 | A view path starts with its base. |
| Forms.ViewPathReadsBack | pkg/backend/root.go:497 | The id written into a view path reads back with Atoi. |
| Templates.Utf8 | pkg/controllers/root.go:76 | The UTF-8 encoding of a code point below 0x10000 takes 1 to 3 bytes, by range. |
| Templates.EllipsisIsUtf8 | pkg/controllers/root.go:76 | The suffix "…" is the UTF-8 encoding of U+2026. |
| Templates.MisencodedEllipsisIsMojibake | senbara-forms/pkg/controllers/root.go:90 | The later suffix is U+2026's three bytes, each read as a Windows-1252 character and encoded again as UTF-8. It differs from "…". |
| Templates.TruncateWith | pkg/backend/root.go:77-83 | A negative length fails: slicing panics. Text no longer than the length is unchanged; longer text is its first `length` bytes followed by the suffix. |
| Templates.TruncateText | pkg/controllers/root.go:71-77 | Text of at most `length` bytes is returned unchanged. Longer text is cut after `length` bytes and ends in the UTF-8 ellipsis. A negative length that has to cut is an execution error. The result is never longer than `length` + 3. |
| Templates.TruncateTextAsWritten | senbara-forms/pkg/controllers/root.go:85-90 | Text of at most `length` bytes is returned unchanged. Longer text is cut after `length` bytes and ends in the mis-encoded suffix. |
| Templates.TruncateTextAsWrittenShowsMojibake | senbara-forms/pkg/controllers/root.go:90 | On "abc" with length 1, the code as written and the corrected helper produce different suffixes. |
| DonnaRoot.IndexPage | pkg/controllers/root.go:124-152 | A path other than "/" is a 404 with the not-found page; "/" renders the index page. It never redirects. |
| DonnaRoot.HandleIndex | pkg/controllers/root.go:112-153 | An authorization error is a 401. A redirect writes nothing more; otherwise IndexPage. |
| DonnaRoot.HandleImprint | pkg/controllers/root.go:155-165 | The imprint is rendered without authorization. |
| SenbaraRoot.IndexReply | senbara-forms/pkg/controllers/root.go:141-161 | A path other than "/" is a 404 with the not-found page; exactly "/" redirects 302 to `/contacts`. |
| SenbaraRoot.IndexRevisionsDiffer | senbara-forms/pkg/controllers/root.go:141-161 | Both revisions answer 404 on the same paths; on "/" only the later one redirects. |
| SenbaraRoot.HandleIndex | senbara-forms/pkg/controllers/root.go:129-162 | Authorize's effects, then the refusal at authorize's status, or IndexReply. |
| BackendRoot.Refusal | pkg/backend/root.go:318-345 | Only an error returned by authorize is answered, with one 401. |
| BackendRoot.Gate | pkg/backend/root.go:318-345 | The backend's authorize, whose effects are written, followed by the refusal. A panic ends the request. |
| BackendRoot.HandleIndex | pkg/backend/root.go:317-358 | An authorization error is a 401, a redirect writes nothing more, and any path but "/" is a 404. |
| BackendRoot.HandleImprint | pkg/backend/root.go:744-754 | The imprint is rendered without authorization. |
| BackendRoot.CreateJournalMeans | pkg/backend/root.go:432-498 | A form-parse failure is a 500. The answer is a 422 exactly when the journal checks fail. The entry is stored untrimmed with the rating narrowed to int32. A failed insert is a 500. Success redirects to `/journal/view?id=<new id>`. |
| BackendRoot.CreateJournalRedirectsToNewEntry | pkg/backend/root.go:497 | The id in the redirect reads back as the new entry's id. |
| BackendRoot.AnswerCreateJournal | pkg/backend/root.go:452-497 | The method makes exactly the calls and writes exactly the answer of CreateJournal. |
| BackendRoot.HandleCreateJournal | pkg/backend/root.go:432-498 | The gate, then AnswerCreateJournal for the user's namespace. |
| BackendRoot.DeleteJournalMeans | pkg/backend/root.go:500-547 | A parse failure is a 500; a 422 exactly when the id checks fail. The delete is scoped by id and namespace, a failure is a 500, and success redirects to `/journal`. |
| BackendRoot.AnswerDeleteJournal | pkg/backend/root.go:520-546 | The method makes exactly the calls and writes exactly the answer of DeleteJournal. |
| BackendRoot.HandleDeleteJournal | pkg/backend/root.go:500-547 | The gate, then AnswerDeleteJournal. |
| BackendRoot.UpdateJournalMeans | pkg/backend/root.go:604-687 | The id, then the journal checks, with a 422 exactly when they fail. A failed update is a 500. Success redirects to `/journal/view?id=` followed by the raw id string. |
| BackendRoot.AnswerUpdateJournal | pkg/backend/root.go:624-686 | The method makes exactly the calls and writes exactly the answer of UpdateJournal. |
| BackendRoot.HandleUpdateJournal | pkg/backend/root.go:604-687 | The gate, then AnswerUpdateJournal. |
| BackendRoot.CreateContactMeans | pkg/backend/root.go:823-893 | A 422 exactly when first name, last name or pronouns is blank. All five fields are stored untrimmed under the namespace, and success redirects to the new contact's view. |
| BackendRoot.CreateContactIgnoresUncheckedFields | pkg/backend/root.go:843-873 | Nickname and e-mail never decide whether the contact is created. |
| BackendRoot.AnswerCreateContact | pkg/backend/root.go:843-892 | The method makes exactly the calls and writes exactly the answer of CreateContactReply. |
| BackendRoot.HandleCreateContact | pkg/backend/root.go:823-893 | The gate, then AnswerCreateContact. |
| BackendRoot.DeleteContactMeans | pkg/backend/root.go:895-942 | A 422 exactly when the id checks fail. The delete is scoped by id and namespace, and success redirects to `/contacts`. |
| BackendRoot.AnswerDeleteContact | pkg/backend/root.go:915-941 | The method makes exactly the calls and writes exactly the answer of DeleteContactReply. |
| BackendRoot.HandleDeleteContact | pkg/backend/root.go:895-942 | The gate, then AnswerDeleteContact. |
| DonnaPersister.Persister.constructor | pkg/persisters/journal.go:13-20 | A persister starts with no calls and the given oracles. |
| DonnaPersister.Persister.Exec | pkg/persisters/journal.go:22-44 | Logs exactly the one call and reports whether it failed. |
| DonnaPersister.Persister.Insert | pkg/persisters/journal.go:13-20 | Logs exactly the one call and returns the assigned id unless it failed. |
| DonnaPersister.Persister.FetchContact | pkg/persisters/contacts.go:32-37 | Logs one GetContact scoped by id and namespace, and returns the row when one exists and the call succeeds. |
| DonnaPersister.InsertAndView | pkg/backend/root.go:488-497 | An insert whose failure is a 500 and whose success redirects to the view of the new id. |
| DonnaPersister.ExecAndGo | pkg/backend/root.go:540-546 | A statement whose failure is a 500 and whose success redirects to the fixed target. |
| DonnaContacts.CreateContactMeans | pkg/controllers/contacts.go:86-162 | A 422 exactly when first name, last name, e-mail address or pronouns fails. The contact is stored untrimmed under the user's namespace, and success redirects to its view. |
| DonnaContacts.CreateContactChecksMoreThanBackend | pkg/controllers/contacts.go:106-142 | The controllers create exactly when the backend would and the e-mail parses; when both create, they answer alike. |
| DonnaContacts.HandleCreateContact | pkg/controllers/contacts.go:86-162 | A refused login writes only the 401 and calls nothing; otherwise CreateContactReply. |
| DonnaContacts.HandleDeleteContact | pkg/controllers/contacts.go:164-211 | The same rules as the backend's contact delete, behind the login refusal. |
| DonnaContacts.ViewContactMeans | pkg/controllers/contacts.go:213-266 | A non-integer id is a 422 with no call. Otherwise there is one GetContact for id and namespace. The page renders exactly when it succeeds, with title first name + " " + last name. |
| DonnaContacts.HandleViewContact | pkg/controllers/contacts.go:213-266 | The login refusal, then ViewContact's call and effects. |
| Store.Filter | senbara-forms/pkg/persisters/contacts.go:50-69 | Filtering keeps exactly the rows that satisfy the condition. |
| Store.UpdateRows | senbara-forms/pkg/persisters/contacts.go:95-98 | Only the rows with the id change, and they take the new fields. |
| Store.RunPlanIssues | senbara-forms/pkg/persisters/userdata.go:113-127 | A plan issues a non-empty prefix of its statements and stops at the first failure. It is ok exactly when none fails. |
| Store.RunPlanAppend | senbara-forms/pkg/persisters/userdata.go:113-127 | Running two plans one after the other is running their concatenation. |
| Store.ApplyAllAppend | senbara-forms/pkg/persisters/userdata.go:113-127 | Applying two plans in turn is applying their concatenation. |
| Store.TransactionAllOrNothing | senbara-forms/pkg/persisters/userdata.go:104-130 | A transaction either applies the whole plan and commits, or leaves the tables as they were. |
| Store.Database.constructor | senbara-forms/pkg/persisters/root.go:19-23 | A database starts outside a transaction with an empty log. |
| Store.Database.Begin | senbara-forms/pkg/persisters/userdata.go:105-108 | Begin snapshots the tables when it succeeds. |
| Store.Database.Exec | senbara-forms/pkg/persisters/userdata.go:113-127 | A statement in a transaction changes the tables exactly when it succeeds. |
| Store.Database.Run | senbara-forms/pkg/persisters/contacts.go:24-31 | A statement outside a transaction changes the tables exactly when it succeeds. |
| Store.Database.Commit | senbara-forms/pkg/persisters/userdata.go:129 | A commit keeps the tables; a failed one restores the snapshot. |
| Store.Database.Rollback | senbara-forms/pkg/persisters/userdata.go:109 | A rollback restores the snapshot. With no transaction open, it does nothing. |
| ContactPersister.GetContacts | senbara-forms/pkg/persisters/contacts.go:11-13 | Returns exactly the namespace's contacts and changes nothing. |
| ContactPersister.FindContact | senbara-forms/pkg/persisters/contacts.go:34-39 | Finds a row with the id exactly when one exists. |
| ContactPersister.GetContact | senbara-forms/pkg/persisters/contacts.go:34-39 | Scoped by id and namespace; it changes nothing. |
| ContactPersister.CreateContact | senbara-forms/pkg/persisters/contacts.go:15-32 | Forwards every field and the namespace unchanged, and adds the row with its new id. |
| ContactPersister.InsertContactEffect | senbara-forms/pkg/persisters/contacts.go:24-31 | An insert appends the row to its namespace and leaves every other namespace unchanged. |
| ContactPersister.DeleteContact | senbara-forms/pkg/persisters/contacts.go:41-72 | One transaction over the intended cascade; it commits only if every step succeeds. |
| ContactPersister.FilterIdempotent | senbara-forms/pkg/persisters/contacts.go:50-69 | Repeating a filter changes nothing. |
| ContactPersister.AsWrittenPlanRepeatsDebtDelete | senbara-forms/pkg/persisters/contacts.go:50-69 | The plan as written has the same effect as deleting the debts once and then the contact. |
| ContactPersister.AsWrittenPlanLeavesActivities | senbara-forms/pkg/persisters/contacts.go:50-69 | In the table model, which enforces no foreign keys, the deleted contact's activity is still there after the plan as written. |
| ContactPersister.DeleteContactPlanEffect | senbara-forms/pkg/persisters/contacts.go:50-69 | The corrected cascade removes the contact and its debts and activities from the namespace, and touches nothing else. |
| ContactPersister.BirthdayColumn | senbara-forms/pkg/persisters/contacts.go:95-98 | The column is valid exactly when a birthday is given, and then holds it. |
| ContactPersister.UpdateContactAsWritten | senbara-forms/pkg/persisters/contacts.go:74-102 | The statement as written exists exactly when the birthday is not nil; it always stores a valid birthday. |
| ContactPersister.UpdateContactAgreesWhereDefined | senbara-forms/pkg/persisters/contacts.go:95-98 | Wherever the code as written is defined, the corrected statement is the same. |
| ContactPersister.UpdateContact | senbara-forms/pkg/persisters/contacts.go:74-102 | Issues the corrected update, which changes the tables exactly when it succeeds. |
| ContactPersister.UpdateContactEffect | senbara-forms/pkg/persisters/contacts.go:74-102 | An update changes only the namespace's row with that id. |
| ContactsController.Refuse | senbara-forms/pkg/controllers/contacts.go:91-108 | A handler proceeds exactly when the login is accepted; a refusal writes only the 401. |
| ContactsController.CreateContactAnswerMeans | senbara-forms/pkg/controllers/contacts.go:90-166 | A parse failure is a 500; a 422 exactly when the four checks fail. An insert failure is a 500, and success redirects to `/contacts/view?id=<new id>`. |
| ContactsController.CreateContactAddsRow | senbara-forms/pkg/controllers/contacts.go:148-165 | After a successful create, the namespace holds the new contact with the submitted fields. |
| ContactsController.CreateAndView | senbara-forms/pkg/controllers/contacts.go:148-165 | The insert, then a 500 or a redirect to the new contact. |
| ContactsController.AnswerCreateContact | senbara-forms/pkg/controllers/contacts.go:110-165 | The tables, the log and the effects are exactly those of CreateContactAnswer. |
| ContactsController.HandleCreateContact | senbara-forms/pkg/controllers/contacts.go:90-166 | The refusal, then AnswerCreateContact. |
| ContactsController.DeleteContactAnswerMeans | senbara-forms/pkg/controllers/contacts.go:168-215 | A 422 exactly when the id checks fail. A failed delete (corrected plan: debts, activities, contact) is a 500 and leaves the tables unchanged. Success redirects to `/contacts`, removes the id's contact, debts and activities from the namespace, and keeps every other row of every namespace. |
| ContactsController.AnswerDeleteContact | senbara-forms/pkg/controllers/contacts.go:188-214 | The tables, the log and the effects are exactly those of DeleteContactAnswer. |
| ContactsController.HandleDeleteContact | senbara-forms/pkg/controllers/contacts.go:168-215 | The refusal, then AnswerDeleteContact. |
| ContactsController.ViewContactAnswerMeans | senbara-forms/pkg/controllers/contacts.go:217-290 | Viewing never changes the tables. A non-integer id is a 422. A failed contact, debts or activities fetch is a 500. Otherwise the page title is first name + " " + last name. |
| ContactsController.Read | senbara-forms/pkg/controllers/contacts.go:256-269 | A debts or activities query is logged, changes nothing and reports whether it failed. |
| ContactsController.HandleViewContact | senbara-forms/pkg/controllers/contacts.go:217-290 | The refusal, then ViewContactAnswer, without any change to the tables. |
| ContactsController.ShowContact | senbara-forms/pkg/controllers/contacts.go:247-289 | The three fetches in order, the first failure a 500, then the render. |
| ContactsController.UpdateContactAnswerMeans | senbara-forms/pkg/controllers/contacts.go:292-409 | A 422 exactly when the update checks fail. A failed update (corrected plan: a blank birthday is stored NULL) is a 500. Success redirects to `/contacts/view?id=` followed by the raw id string. |
| ContactsController.BlankBirthdayReachesNilDereference | senbara-forms/pkg/controllers/contacts.go:368-382 | A valid form with a blank birthday reaches the persister with nil, where the code as written is undefined. |
| ContactsController.AnswerUpdateContact | senbara-forms/pkg/controllers/contacts.go:312-408 | The tables, the log and the effects are exactly those of UpdateContactAnswer. |
| ContactsController.HandleUpdateContact | senbara-forms/pkg/controllers/contacts.go:292-409 | The refusal, then AnswerUpdateContact. |
| ContactsController.UpdateAndView | senbara-forms/pkg/controllers/contacts.go:388-408 | The update, then a 500 or the redirect with the raw id. |
| UserDataModels.ExportedRecord.WithEntityName | senbara-forms/pkg/models/userdata.go:8-60 | Tagging sets the entity name and keeps the record's kind. |
| UserDataExport.Tagged | senbara-forms/pkg/controllers/userdata.go:42-77 | An exported record carries its kind's entity name. |
| UserDataExport.KindNamesDistinct | senbara-forms/pkg/controllers/userdata.go:13-18 | Two records share an entity name exactly when they are of the same kind. |
| UserDataExport.LinesAt | senbara-forms/pkg/controllers/userdata.go:42-77 | Line i of the export is record i, tagged with its kind. |
| UserDataExport.LinesAppend | senbara-forms/pkg/controllers/userdata.go:42-77 | Exporting two runs of records one after the other writes their lines one after the other. |
| UserDataExport.Emit | senbara-forms/pkg/controllers/userdata.go:42-77 | One tagged record is written, unless the write fails. |
| UserDataExport.EmitLinesWrites | senbara-forms/pkg/controllers/userdata.go:42-77 | The lines written are a prefix of the records' lines. All are written unless a write fails, and then the output stops there. |
| UserDataPersister.JournalEntryRecords | senbara-forms/pkg/persisters/userdata.go:27-43 | One record per journal row. |
| UserDataPersister.ContactRecords | senbara-forms/pkg/persisters/userdata.go:45-65 | One record per contact row. |
| UserDataPersister.DebtRecords | senbara-forms/pkg/persisters/userdata.go:67-82 | One record per debt row. |
| UserDataPersister.ActivityRecords | senbara-forms/pkg/persisters/userdata.go:84-99 | One record per activity row. |
| UserDataPersister.AllRecordsAppend | senbara-forms/pkg/persisters/userdata.go:27-99 | A run of queries yields the records of its parts, in order. |
| UserDataPersister.ExportRecordsInOrder | senbara-forms/pkg/persisters/userdata.go:27-99 | The export yields journal entries, then contacts, then debts, then activities, each as the namespace's rows. |
| UserDataPersister.StageWrites | senbara-forms/pkg/persisters/userdata.go:27-43 | One query writes a prefix of its lines, and all of them when it succeeds. |
| UserDataPersister.WalkWrites | senbara-forms/pkg/persisters/userdata.go:27-99 | The walk issues a prefix of the queries and writes a prefix of those queries' lines. A clean walk issues all four and writes every line. |
| UserDataPersister.EmitAll | senbara-forms/pkg/persisters/userdata.go:33-42 | The callback loop writes exactly what EmitLines says. |
| UserDataPersister.ExportQueriesReadOnly | senbara-forms/pkg/persisters/userdata.go:27-99 | The four export queries change no data. |
| UserDataPersister.ExportStage | senbara-forms/pkg/persisters/userdata.go:27-43 | One query and its callbacks, as Stage says, with the tables unchanged. |
| UserDataPersister.ExportStages | senbara-forms/pkg/persisters/userdata.go:27-99 | The queries in order, as Walk says, with the tables unchanged. |
| UserDataPersister.GetUserData | senbara-forms/pkg/persisters/userdata.go:9-102 | The export never changes the data. A failed Begin writes nothing. Otherwise the walk runs in a transaction that is always rolled back. |
| UserDataPersister.ExecTwo | senbara-forms/pkg/persisters/userdata.go:113-119 | Two deletes in turn, as RunPlan says. |
| UserDataPersister.ExecDeletes | senbara-forms/pkg/persisters/userdata.go:113-127 | Activities, debts, contacts, then journal entries, as RunPlan says, each scoped by the namespace. |
| UserDataPersister.DeleteUserData | senbara-forms/pkg/persisters/userdata.go:104-130 | The four deletes as one transaction, which commits only if all succeed. |
| UserDataPersister.DeleteUserDataPlanEffect | senbara-forms/pkg/persisters/userdata.go:113-127 | The plan empties all four tables for the namespace and leaves every other namespace unchanged. |
| UserDataController.ExportBodyLines | senbara-forms/pkg/controllers/userdata.go:42-84 | The body is every exported line, or a prefix of them followed by one `http.Error` call with 500. No exported line is an error. Once a line has been written, Go has already sent status 200, so that call only appends its text. |
| UserDataController.LinesAreJson | senbara-forms/pkg/controllers/userdata.go:42-77 | Every export line is a JSON value. |
| UserDataController.AllRecordsPrefix | senbara-forms/pkg/persisters/userdata.go:27-99 | The records of a run of queries split at any point. |
| UserDataController.ExportReply | senbara-forms/pkg/controllers/userdata.go:42-84 | The response body is ExportBody, and the tables are unchanged. |
| UserDataController.HandleUserData | senbara-forms/pkg/controllers/userdata.go:20-85 | The gate; then the JSONL headers and the export body for the user's namespace. No data changes. |
| UserDataController.ImportStep | senbara-forms/pkg/controllers/userdata.go:152-228 | Only a decoded record of a known kind is inserted. |
| UserDataController.ImportLoopStep | senbara-forms/pkg/controllers/userdata.go:129-230 | One pass of the import loop: a decode error stops, an unknown kind is skipped, an insert failure stops, and otherwise the loop goes on. |
| UserDataController.ImportLoopRunsPlan | senbara-forms/pkg/controllers/userdata.go:129-230 | The loop issues the inserts of the stream in order, one per known record, exactly as RunPlan runs them. |
| UserDataController.ImportAllOrNothing | senbara-forms/pkg/controllers/userdata.go:87-241 | The import redirects to `/contacts` exactly when the stream ends cleanly and the transaction commits. Then every insert is applied; otherwise the tables are unchanged. |
| UserDataController.ImportUpload | senbara-forms/pkg/controllers/userdata.go:108-240 | The tables, the log and the reply are exactly those of Import. |
| UserDataController.ApplyAllSnoc | senbara-forms/pkg/controllers/userdata.go:129-230 | Applying one more insert extends the applied plan. |
| UserDataController.HandleCreateUserData | senbara-forms/pkg/controllers/userdata.go:87-241 | The gate. A missing upload is a 500 and changes nothing. Otherwise the result is Import for the user's namespace. |
| UserDataController.Reread | senbara-forms/pkg/controllers/userdata.go:129-151 | Decoding an export yields one chunk per line. |
| UserDataController.InsertsOf | senbara-forms/pkg/controllers/userdata.go:152-223 | One insert per record. |
| UserDataController.ImportStepOfExportedLine | senbara-forms/pkg/controllers/userdata.go:152-223 | An exported line imports as the insert for its kind. |
| UserDataController.ReimportPlan | senbara-forms/pkg/controllers/userdata.go:129-230 | Re-importing an export reads cleanly and plans one insert per record, in order. |
| UserDataController.RowsOfAppend | senbara-forms/pkg/controllers/userdata.go:152-223 | The rows of consecutive records concatenate. |
| UserDataController.InsertOfAppendsRow | senbara-forms/pkg/controllers/userdata.go:152-223 | One insert appends one row to its namespace and touches no other namespace. |
| UserDataController.InsertsAppendRows | senbara-forms/pkg/controllers/userdata.go:152-223 | The inserts append every record's row to the namespace, in order. |
| UserDataController.InsertsKeepOthers | senbara-forms/pkg/controllers/userdata.go:152-223 | The inserts leave every other namespace unchanged. |
| UserDataController.JournalEntryRecordsRows | senbara-forms/pkg/persisters/userdata.go:32-43 | Journal rows survive export unchanged. |
| UserDataController.ContactRecordsRows | senbara-forms/pkg/persisters/userdata.go:50-64 | Contact rows survive export unchanged. |
| UserDataController.DebtRecordsRows | senbara-forms/pkg/persisters/userdata.go:72-82 | Debt rows survive export unchanged. |
| UserDataController.ActivityRecordsRows | senbara-forms/pkg/persisters/userdata.go:89-99 | Activity rows survive export unchanged. |
| UserDataController.ExportedRows | senbara-forms/pkg/persisters/userdata.go:27-99 | The export holds exactly the namespace's rows of all four kinds. |
| UserDataController.ExportThenImport | senbara-forms/pkg/controllers/userdata.go:87-241 | Importing an export reads cleanly. It appends the exported namespace's rows to the target's and leaves every other namespace unchanged. |
| UserDataController.HandleDeleteUserData | senbara-forms/pkg/controllers/userdata.go:243-264 | The gate. Then delete-all as one transaction: success redirects to the user's logout URL, and failure is a 500 with the data unchanged. |
| Migrations.Canonical | internal/migrations/migrations.go:41 | Every backslash becomes "/" and nothing else changes. |
| Migrations.CanonicalIdempotent | internal/migrations/migrations.go:41 | Normalising twice is normalising once. |
| Migrations.JoinSplit | internal/migrations/migrations.go:77-78 | Joining the pieces of a split with "/" gives back the name. |
| Migrations.SplitJoin | internal/migrations/migrations.go:77-78 | Splitting pieces joined with "/" gives back the pieces, when no piece holds a "/". |
| Migrations.AssetIgnoresSeparators | internal/migrations/migrations.go:40-46 | A name and its normalised form find the same asset. |
| Migrations.KnownAssets | internal/migrations/migrations.go:40-46 | The one migration name returns its generator's result; every other name is "Asset <name> not found". |
| Migrations.Keys | internal/migrations/migrations.go:49-55 | The map's keys, each exactly once, in some order. |
| Migrations.AssetNames | internal/migrations/migrations.go:49-55 | Exactly the keys of `_bindata`, each once. |
| Migrations.OneAssetName | internal/migrations/migrations.go:58-60 | Those names are exactly the one migration. |
| Migrations.AssetDir | internal/migrations/migrations.go:74-94 | Fails exactly when the walk misses a segment or ends on a file, with the not-found error. Otherwise returns exactly the node's child names, each once. |
| Migrations.RootListing | internal/migrations/migrations.go:75-76 | `AssetDir("")` lists only "..". |
| Migrations.FindInBintree | internal/migrations/migrations.go:100-107 | The tree has exactly four nodes, and its one file is the migration. |
| Migrations.BindataMatchesBintree | internal/migrations/migrations.go:40-107 | A name is in `_bindata` exactly when the tree walk ends on a file with the same generator; such a name has no listing. |
| Migrations.MigrationPathSplits | internal/migrations/migrations.go:100-107 | The migration's name splits into exactly its path in the tree. |

## Left out

- Authorization in the current controllers: `senbara-forms/pkg/controllers/contacts.go` takes three results from an `authorize` whose definition is not part of this model. Its result is an `Authorization` input of those handlers.
- The OpenID Connect and OAuth2 libraries, that is ID-token signature checks, the token endpoint and the auth-code URL. These are oracle functions.
- `url.Parse`, `net/mail.ParseAddress` and `time.Parse` are oracle sets and maps in `Forms.Parsers`.
- JSON encoding and decoding: a record is written as a value, and decoding is a chunk that succeeded or failed.
- Template rendering, Markdown and localisation. A render is an effect that may fail, and localisation is a flag on the request.
- The SQL of the generated queries is not part of this model. The current revision's statements act on per-namespace tables, as their names and arguments say, with two exceptions named below (`ContactPersister.DeleteContact`, `ContactPersister.CreateContact`); the earlier revision's calls go to oracles.
- The debts and activities persisters (`GetDebts`, `GetActivities`) and `pkg/controllers/debts.go` are not part of this model. The view handler's two fetches are statements that read and may fail.
- The listing, add, edit and journal-view handlers (`HandleContacts`, `HandleAddContact`, `HandleEditContact`, `HandleJournal`, `HandleAddJournal`, `HandleEditJournal`, `HandleViewJournal`): each is one fetch and a render, with no rule of its own.
- The gzip decompression in `bindata_read` becomes the `load` parameter of `Migrations.Asset`.
- Map iteration order: `Migrations.Keys` returns the keys in an order it chooses.
- A panic ends the request. The model records the effects written before it and nothing after. Concurrency and entry points are not modelled either.
- Floating point: a debt's amount is carried through unchanged and never computed with.
- UserDataController.HandleCreateUserData: the creators are taken to insert each row under the user's namespace. The generated queries that would show this are not part of this model.
- UserDataPersister.WalkWrites: only states that what is written is a prefix of the lines; it does not identify which write failed.
- ContactPersister.DeleteContact and ContactPersister.UpdateContact model the corrected behaviour. The code as written is modelled beside them; see Findings.
- ContactPersister.DeleteContact: the activities delete in its plan, `Store.Statement.DeleteActivitiesForContact`, is the model's own statement. The source's generated queries include no activities-by-contact delete, only `DeleteActivity` and `DeleteActivitiesForNamespace`.
- ContactPersister.CreateContact: the source supplies six columns only. The unsupplied ones are taken to default to a NULL birthday, an empty address and empty notes, and `ContactsController.CreateContactAddsRow` states the whole row under that assumption.
- ContactsController.DeleteContactAnswerMeans: states the handler over the corrected delete plan (debts, activities, then the contact); the code as written deletes debts twice and activities never.
- ContactsController.AnswerDeleteContact: runs the corrected delete plan, not the one as written.
- ContactsController.HandleDeleteContact: runs the corrected delete plan, not the one as written.
- ContactsController.UpdateContactAnswerMeans: states the handler over the corrected update, in which a blank birthday is stored NULL and the request redirects; the code as written passes nil and dereferences it.
- ContactsController.AnswerUpdateContact: runs the corrected update, storing NULL for a blank birthday, where the code as written panics.
- ContactsController.HandleUpdateContact: runs the corrected update, storing NULL for a blank birthday, where the code as written panics.
- ContactsController.UpdateAndView: runs the corrected update, storing NULL for a blank birthday, where the code as written panics.
- UserDataController.ExportThenImport: the creators are taken to copy each exported row's `id` and `contactId` unchanged. The queries of `CreateUserData` are not part of this model, and the round trip of row identities rests on that assumption.
- UserDataController.ExportBodyLines: does not track response status. Go keeps the first status written, so a 500 after exported lines reaches the client as 200 with the error text appended.
- Http.RenderEffects: does not track response status either. When a template fails after writing part of a page, status 200 has been sent and the 500's text follows the partial page.

## Findings

| source | as written | input that shows it | evidently intended | confidence | as-written member | corrected member |
|---|---|---|---|---|---|---|
| senbara-forms/pkg/controllers/root.go:90 | the truncation suffix is "â€¦", the UTF-8 bytes of "…" decoded as Windows-1252 and encoded again | `TruncateText("abc", 1)` gives "a" followed by "â€¦" | "a…", as the earlier revisions write it | not executed | Templates.TruncateTextAsWrittenShowsMojibake | Templates.TruncateText |
| pkg/backend/authn.go:49-95 | after a renewal, claims are read from the result of the first, failed verification, which is nil | a rejected cookie token whose refresh returns a new ID token | verify the renewed token and read its claims, as the current revision does | not executed | LegacyAuthn.RenewalPanicsHereButNotInCurrentRevision | Authn.Decide |
| senbara-forms/pkg/persisters/contacts.go:50-69 | the contact's debts are deleted twice and its activities never | a contact with one activity. The duplicated `DeleteDebtsForContact` call and the missing activities delete are in the text. What follows depends on the schema, which is not part of this model: without a foreign key the activity remains; with one and no cascade the contact delete fails, the transaction rolls back and the handler answers 500; with ON DELETE CASCADE the database removes the activity anyway | delete debts, delete the contact's activities, then the contact; the activities-by-contact delete is a query the source would have to add, since none exists | not executed | ContactPersister.AsWrittenPlanLeavesActivities | ContactPersister.DeleteContactPlanEffect |
| senbara-forms/pkg/persisters/contacts.go:95-98 | the `*time.Time` birthday is dereferenced and stored as valid; the caller passes nil for a blank birthday | an update form with a blank `birthday` | store a NULL birthday when none is given | not executed | ContactsController.BlankBirthdayReachesNilDereference | ContactPersister.UpdateContactAgreesWhereDefined |
