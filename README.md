# Credential sign-in, password reset and user administration — a Dafny model

This project models the request-handling rules of a small web application.
Users sign in with an email and a password. A forgotten password is reset
through an emailed, time-limited link. An administrator lists users and
creates invited accounts. The model covers:

- the credentials check of the sign-in provider and the `jwt` and `session`
  callbacks that carry the role claim into every session (`src/lib/auth.ts`);
- the reset-token lifecycle: requesting a link
  (`src/app/api/auth/forgot-password/route.ts`) and completing a reset
  (`src/app/api/auth/reset-password/route.ts`);
- the administrator API: listing users and creating an invited user
  (`src/app/api/member/users/route.ts`);
- the list updates of the administrator's user page
  (`src/app/member/users/page.tsx`).

The database is two tables held as sequences: `users` and `tokens`
(verification tokens). `Records.WellFormed` states their unique columns: the
user id, the user email and the token value. Each route is a pure step
function from the tables and the request to the tables afterwards and the
reply (`ForgotPasswordApi.Post`, `ResetPasswordApi.Post`,
`MemberUsersApi.Post`). The properties that matter are proved as lemmas
about these step functions:

- every refusal leaves the tables unchanged;
- after a reset request, exactly one token exists for that email;
- a consumed token cannot be used again;
- a superseded link is dead;
- invited and inactive users cannot sign in;
- emails stay unique.

The class `Persistence.Store` holds both tables as fields. Its methods run
each state-changing handler statement by statement, in the order the handler
does: `deleteMany`, then `create`; `update`, then `delete`. Each method is
proved to end in exactly the state and reply its step function gives, and to
keep the unique constraints. GET is a query, so it is the pure function
`MemberUsersApi.Get`.

Inputs that the code takes from outside become parameters:

- the clock: `now`, in milliseconds;
- the random token the route draws: `drawn`;
- the id the database assigns: `newId`;
- the salted hash of the new password: `hashed`;
- the hash comparison: `compare`, which may throw;
- the session the route reads: `Option<Viewer>`;
- the answers of `fetch` on the page: `Net`.

A unique-column violation on insert is modelled as the database refusing the
row. The routes then behave as their `catch` blocks make them:

- the reset request answers 500 after it has already deleted the earlier tokens;
- the user-creation route swallows a refused token insert and still answers 201;
- a refused user id gives 500.

Two input checks are limited, and the model follows the code:

- the create route checks only that email and role are present and that the
  email is unused, and does not check the email's format or the role's value;
- the reset route checks only the length of the password (at least 8).

## Model

| member | source | states |
|---|---|---|
| Seqs.Filter | src/app/api/auth/forgot-password/route.ts:38-40 | `deleteMany`/`filter`: the result holds exactly the rows that pass the condition |
| Seqs.Update | src/app/api/auth/reset-password/route.ts:52-55 | `update`/`map`: same length, and each row is changed exactly when it matches |
| Seqs.Find | src/app/api/auth/reset-password/route.ts:26-28 | `findUnique`: a found row is in the table and matches; nothing is found exactly when no row matches |
| Records.FindUserByEmailFinds | src/lib/auth.ts:32-36 | with unique emails, the lookup by email returns the one user that has it |
| Records.FindTokenFinds | src/app/api/auth/reset-password/route.ts:26-28 | with unique token values, the lookup by token returns the one row that has it |
| Auth.Authorize | src/lib/auth.ts:22-73 | refuses incomplete credentials before any lookup; refuses a throw, an unknown email, a missing or empty hash, a failed or throwing comparison, and an inactive user even with the right password; when every guard passes, returns exactly that user's id, email, name and role |
| Auth.InactiveOrPasswordlessNeverSignsIn | src/lib/auth.ts:40-60 | a stored user without a password, or inactive, never signs in, whatever password is typed |
| Auth.ActiveUserSignsIn | src/lib/auth.ts:45-68 | an active stored user whose hash verifies the typed password signs in with their own claims |
| Auth.JwtCallback | src/lib/auth.ts:81-86 | the token's role becomes the user's role when a user is supplied; otherwise the token is unchanged |
| Auth.SessionCallback | src/lib/auth.ts:87-93 | with a token, the session's user id is the token's subject and its role is the token's role; without one, nothing changes |
| Auth.SignInSession | src/lib/auth.ts:81-93 | after sign-in the session carries the user's id and role, so the admin gate passes exactly when the role stored at sign-in is "ADMIN" |
| ForgotPasswordApi.Post | src/app/api/auth/forgot-password/route.ts:9-86 | never changes users; a missing or empty email gets 400 and no change; an unknown email gets the success reply and no change; the only replies are 200, 400 and 500 |
| ForgotPasswordApi.FreshTokenAlwaysSent | src/app/api/auth/forgot-password/route.ts:25-78 | with an unused token value, every present email gets the same 200 reply, whether or not an account has it |
| ForgotPasswordApi.OneTokenAfterRequest | src/app/api/auth/forgot-password/route.ts:33-49 | after a successful request for a known email, that email has exactly one token: the new one, expiring at now + 24 h |
| ForgotPasswordApi.OtherTokensUntouched | src/app/api/auth/forgot-password/route.ts:37-49 | tokens of other emails are left as they were, in the same order, on every path |
| ForgotPasswordApi.PostKeepsWellFormed | src/app/api/auth/forgot-password/route.ts:42-49 | the request keeps the unique constraints |
| ResetPasswordApi.Post | src/app/api/auth/reset-password/route.ts:6-73 | every non-200 reply leaves both tables unchanged; a missing token or password gets 400; with both present, the reply is PasswordTooShort exactly when the password is shorter than 8 (so exactly 8 passes); with a long enough password, the reply is the bad-token 400 exactly when the token is unknown or `expires < now` (so expiry at `now` passes) |
| ResetPasswordApi.AccountGoneKeepsToken | src/app/api/auth/reset-password/route.ts:37-47 | a live token whose account is gone gets 404, and the token stays |
| ResetPasswordApi.ResetEffect | src/app/api/auth/reset-password/route.ts:49-60 | a successful reset sets the stored hash of the token's user and changes no other user or field; it removes the token |
| ResetPasswordApi.TokenSingleUse | src/app/api/auth/reset-password/route.ts:26-60 | the first completion with a live token of an existing user succeeds, and any second completion with the same token gets 400 |
| ResetPasswordApi.PostKeepsWellFormed | src/app/api/auth/reset-password/route.ts:52-60 | the reset keeps the unique constraints |
| MemberUsersApi.InsertByAge | src/app/api/member/users/route.ts:33-35 | inserting into a newest-first list keeps it newest-first and adds exactly that entry |
| MemberUsersApi.SortNewestFirst | src/app/api/member/users/route.ts:33-35 | the result is in non-increasing `createdAt` order and is a permutation of the input |
| MemberUsersApi.Get | src/app/api/member/users/route.ts:13-46 | without an ADMIN session, 403; otherwise 200 and every user exactly once, projected to the public columns (no password), newest first |
| MemberUsersApi.Post | src/app/api/member/users/route.ts:49-147 | every reply other than 201 leaves the tables unchanged; without an ADMIN session, 403; a missing or empty email or role gets 400; the reply is 201 exactly when the session is ADMIN, email and role are present, and neither the email nor the new id is in use, and it then carries the invited user; it is 500 exactly when all of that holds except that the id is taken |
| MemberUsersApi.EmailInUseRefused | src/app/api/member/users/route.ts:69-79 | an email already in use gets 400 and no change |
| MemberUsersApi.CreationEffect | src/app/api/member/users/route.ts:81-139 | a successful create appends exactly one user: the given email and role, the name or null, no password, active. With an unused token value, it appends one token for that email expiring at now + 7 days, after that email's earlier tokens, which all stay. With a taken value, the refused insert is swallowed: 201, the user stays, and the token table is unchanged |
| MemberUsersApi.PostKeepsWellFormed | src/app/api/member/users/route.ts:69-90 | creation keeps the unique constraints, so no two users ever share an email |
| Lifecycle.InvitedUserCannotSignIn | src/app/api/member/users/route.ts:81-90 | a user just created by an administrator cannot sign in with any password |
| Lifecycle.ResetThenSignIn | src/app/api/auth/reset-password/route.ts:49-55 | after a reset, the token's active user signs in with the new password, with unchanged claims |
| Lifecycle.ResetRetiresOldPassword | src/app/api/auth/reset-password/route.ts:52-55 | after a reset, a password that the new hash does not verify no longer signs in |
| Lifecycle.RequestedLinkWorksForADay | src/app/api/auth/forgot-password/route.ts:33-49 | the link just issued completes a reset up to and including now + 24 h, and gets 400 after that |
| Lifecycle.SupersededLinkIsDead | src/app/api/auth/forgot-password/route.ts:37-40 | after a new request, every earlier link of that email gets 400 |
| Lifecycle.InvitationThenSignIn | src/app/api/member/users/route.ts:92-104 | the invitation link sets a password within 7 days, and the invited user can then sign in with it |
| Persistence.Store.ForgotPassword | src/app/api/auth/forgot-password/route.ts:9-86 | running the handler step by step (`deleteMany`, then `create`) leaves exactly the tables and reply of `ForgotPasswordApi.Post`, and keeps the unique constraints |
| Persistence.Store.ResetPassword | src/app/api/auth/reset-password/route.ts:6-73 | running the handler step by step (`update`, then `delete`) leaves exactly the tables and reply of `ResetPasswordApi.Post`, and keeps the unique constraints |
| Persistence.Store.CreateUser | src/app/api/member/users/route.ts:49-147 | running the handler step by step (user `create`, then token `create`) leaves exactly the tables and reply of `MemberUsersApi.Post`, and keeps the unique constraints |
| MemberUsersPage.RemoveById | src/app/member/users/page.tsx:60-61 | after a delete, the list holds exactly the entries whose id differs |
| MemberUsersPage.RemoveByIdKeepsOrder | src/app/member/users/page.tsx:61 | removal keeps the remaining entries in their original order |
| MemberUsersPage.RemoveAbsentId | src/app/member/users/page.tsx:61 | removing an id that is not listed changes nothing |
| MemberUsersPage.SetActiveById | src/app/member/users/page.tsx:80-85 | same length and order; only `isActive` changes, set to the requested value on the entries with the id; other entries are unchanged |
| MemberUsersPage.ToggleTwiceRestores | src/app/member/users/page.tsx:70-85 | toggling a row and toggling it back restores the list |
| MemberUsersPage.UsersPage.constructor | src/app/member/users/page.tsx:21-23 | the page starts with an empty list, loading, and no error |
| MemberUsersPage.UsersPage.FetchUsers | src/app/member/users/page.tsx:36-50 | on an ok answer the list becomes the server's list; otherwise the list stays and an error is set; loading is false afterwards in every case |
| MemberUsersPage.UsersPage.HandleDeleteUser | src/app/member/users/page.tsx:52-68 | declined: no request and no change. Success: the id is removed. Failure or throw: the list stays and the matching error is set |
| MemberUsersPage.UsersPage.HandleToggleUserStatus | src/app/member/users/page.tsx:70-92 | requests the negation of the row's `isActive`. Success: that value is written into the entries with the id. Failure or throw: the list stays and the matching error is set |

## Left out

- Database failures other than unique-column violations, such as a lost connection or a query that throws: each route's outer `catch` answers 500 for these, and this is not modelled.
- Malformed request bodies (`request.json()` throwing, fields that are not strings): request fields are modelled as optional strings.
- Password hashing (`hashPassword` in `src/lib/utils.ts`, which is not part of this model) and its random salt. The hash is the parameter `hashed`, and `Auth.Verifies` states as a hypothesis that the comparison accepts it.
- Token generation (`crypto.randomBytes`): the token is the parameter `drawn`. The model does not assume it is fresh; a reused value is refused by the unique column.
- Sending email (Resend), including the fixed test recipient in the create route: both routes catch and ignore its failure, so no step depends on it and it has no input.
- The clock: `now` is a parameter in milliseconds.
- JWT signing, the 30-day session lifetime, and the library setting `sub` to the user id (`Auth.SignInSession` takes it as given).
- Concurrency: the check-then-act races between the token lookup and its deletion, and between the uniqueness check and the insert. The model is sequential.
- Rendering, routing and redirects of the pages, including the page's own admin check before it loads (`src/app/member/users/page.tsx:25-34`).
- The PATCH and DELETE handlers for a single user are not part of this model. The page's calls to them are modelled only through their answers (`Net`).
- Email format validation (`validateEmail` in `src/lib/utils.ts`) is not part of this model; no modelled route calls it.
- MemberUsersApi.Get: the order among users with equal `createdAt` is left to the database; the contract fixes only non-increasing order and the permutation.
- ResetPasswordApi.Post: JavaScript's `length` counts UTF-16 code units, while the model counts characters. The two differ only for characters outside the Basic Multilingual Plane.
- MemberUsersApi.Post: the role is stored as given. If the database schema rejects an unknown role, the insert would throw and the route would answer 500; the schema is not part of this model.
