# ATS Dairy: authentication sessions and page rules, in Dafny

This project models two parts of the ATS Dairy administration application.

The first part is the backend's authentication core. It has a credential table of
users (`models/User.js`) and a session issuer (`controllers/authController.js`).
The issuer mints access tokens and rotating refresh tokens, and it keeps the refresh
tokens in a `refresh_tokens` table. `AuthController.AuthService` is a class that
holds both tables. It has one method per HTTP handler (`register`, `login`,
`refresh`, `logout`, `forgotPassword`). Each method returns the status code, the
JSON body and the effect on the `refreshToken` cookie, and it updates the tables.

The second part is the decision logic of three frontend pages:

- the sign-up validation chain (`Signup.jsx`);
- the retailer and sale rules and the sales analytics (`SalesRetailers.jsx`);
- the review ids, the respond-to-review update, the tallies and chart data, and
  the delete-confirmation dialog (`Review.jsx`).

Pure computations are functions. The React state a handler updates is a field of a
class, and the handler is a method with `modifies`.

Modules:

- `Wrappers`: the `Option` type.
- `Seqs`: counting and filtering, the models of `filter` and `filter(...).length`.
- `JsText`: the JavaScript string primitives the pages use. These are `\s`,
  `trim`, `length` in UTF-16 code units, `toLowerCase`, `padStart`, `replace`, and
  decimal and hex digit strings.
- `Patterns`: the regular expressions, each as the set of strings it accepts.
- `UserModel`, `AuthController`, `Signup`, `SalesRetailers`, `Review`: one module
  per source file.

External pieces are modelled as follows:

- bcrypt is an injective hash.
- `crypto.randomBytes(64).toString('hex')` is a fresh-value oracle. It is a counter
  written as 128 hex digits, so a new token never equals one handed out before.
- The database clock, the refresh TTL, `Date.now()`-based user ids and today's
  date are parameters.
- SalesRetailers.jsx chooses its `retailers` and `sales` lists by `Array.isArray`:
  the backend list if it is an array, else the local list if that is one, else
  the empty list. `SalesRetailers.ChooseList` writes that choice out; the
  handlers and the analytics functions of that page take the already-chosen list
  as a parameter. Review.jsx makes no such choice: its handlers and analytics
  take the context's `reviews` and `farmerFeedback` lists as they are.
- The asynchronous context calls (`signup`, `addRetailerToDB`, `addReview`,
  `updateReview`, …) are opaque. A handler returns the call it would issue and
  takes an `outcome` parameter that says how the call ended.

## Model

| member | source | states |
|---|---|---|
| `UserModel.Hash` | dairy-backend/models/User.js:6 | the stored hash is made with cost factor 12 |
| `UserModel.Compare` | dairy-backend/models/User.js:19-21 | `compare(pwd, hash)` holds exactly when `hash` was produced from `pwd` |
| `UserModel.CompareHash` | dairy-backend/models/User.js:6-9 | the hash `create` stores accepts its own password and rejects every other one |
| `UserModel.FirstByEmail` | dairy-backend/models/User.js:14-17 | `findByEmail` gives the first row, in table order, whose email is the argument, or none exactly when no row has it |
| `UserModel.UserTable.FindByEmail` | dairy-backend/models/User.js:14-17 | `User.findByEmail` on the table: none exactly when no row has the email, otherwise a stored row with that email |
| `UserModel.UserTable.Create` | dairy-backend/models/User.js:5-12 | inserts one row holding the hash of the password and returns `{id, name, email, role}` without the hash |
| `UserModel.FindAfterInsert` | dairy-backend/models/User.js:7-10 | after `create` with a new email, `findByEmail` yields that row, and its hash passes `compare` with the original password |
| `UserModel.FindOtherAfterInsert` | dairy-backend/models/User.js:14-17 | inserting a row does not change the lookup of any other email |
| `AuthController.MintToken` | dairy-backend/controllers/authController.js:9-10 | a refresh token is at least 128 lower-case hex digits and encodes its serial number |
| `AuthController.MintTokenInjective` | dairy-backend/controllers/authController.js:9-10 | two different calls never mint the same token |
| `AuthController.FirstByToken` | dairy-backend/controllers/authController.js:93-94 | `rows[0]` of the token query: a stored row with that token, or none exactly when no row holds it |
| `AuthController.DeleteWhere` | dairy-backend/controllers/authController.js:97 | a `DELETE ... WHERE` (by id here and by token at line 121) keeps every copy of each row that does not match and no copy of any row that does, and keeps rows pairwise distinct |
| `AuthController.DeleteWhereAppend` | dairy-backend/controllers/authController.js:97 | the delete acts on each stretch of the table separately, so the rows that stay keep their relative order |
| `AuthController.DeleteWhereSingle` | dairy-backend/controllers/authController.js:97 | a single row stays exactly when it does not match; with `DeleteWhereAppend` this fixes the result row by row |
| `AuthController.UniqueIdLeavesRest` | dairy-backend/controllers/authController.js:97 | when ids are unique, all rows but the one with the deleted id survive |
| `AuthController.DeleteById` | dairy-backend/controllers/authController.js:97 | in a table of distinct rows, deleting the id of a stored row removes exactly one row |
| `AuthController.DeleteByToken` | dairy-backend/controllers/authController.js:121 | after the delete, no row holds the token, so `refresh` no longer finds it |
| `AuthController.DeleteByTokenIdempotent` | dairy-backend/controllers/authController.js:121 | deleting by the same token twice equals deleting it once |
| `AuthController.RotationConsumes` | dairy-backend/controllers/authController.js:97-103 | once the found row is deleted by id and a row with another token is inserted, the presented token is found no more |
| `AuthController.AuthService.Issue` | dairy-backend/controllers/authController.js:20-24 | inserts exactly one row for the user with a token that no stored row holds, and keeps the table invariant |
| `AuthController.AuthService.SignRefresh` | dairy-backend/controllers/authController.js:9-10 | `signRefresh()` hands out the next token of the oracle, which decodes to the old counter and so was never handed out before, and the table invariant still holds |
| `AuthController.AuthService.InsertToken` | dairy-backend/controllers/authController.js:21-24 | the INSERT appends one row with the next auto-increment id, the user id, the token and expiry `now + ttl`, changes no other row, and keeps the table invariant when the token is one minted earlier and not yet stored |
| `AuthController.AuthService.Register` | dairy-backend/controllers/authController.js:12-37 | a taken email gives 409 and changes neither table; otherwise it creates a "farmer" user, inserts one token row owned by that user, and returns `{accessToken {id, role}, user}` with the refresh cookie |
| `AuthController.AuthService.ForgotPassword` | dairy-backend/controllers/authController.js:39-58 | gives 404 for an unknown email and the fixed success message otherwise, and modifies nothing |
| `AuthController.AuthService.Login` | dairy-backend/controllers/authController.js:61-86 | an unknown email or a wrong password gives 401 and changes nothing; otherwise it inserts one token row for `user.id` and returns `{id, name, email, role}` without the hash |
| `AuthController.AuthService.Refresh` | dairy-backend/controllers/authController.js:88-116 | no cookie gives 401; an unknown token or one that expired strictly before `now` gives 403, and neither changes anything; otherwise it deletes the presented row, inserts one row with the same user id and a different token, and returns an access token with `{id}` only; the old token is then gone |
| `AuthController.AuthService.Logout` | dairy-backend/controllers/authController.js:118-126 | deletes every row with the presented token, or nothing without a cookie, and always answers 204 with the cookie cleared |
| `AuthController.AuthService.RegisterTwice` | dairy-backend/controllers/authController.js:15-17 | registering the same email a second time gives 409 |
| `AuthController.AuthService.RefreshReplay` | dairy-backend/controllers/authController.js:93-97 | presenting a token again after a successful refresh gives 403 (single use) |
| `AuthController.AuthService.LogoutThenRefresh` | dairy-backend/controllers/authController.js:91-95 | after logout, refreshing with the same cookie gives 403, or 401 when there was no cookie |
| `AuthController.AuthService.LogoutTwice` | dairy-backend/controllers/authController.js:118-126 | logging out twice has the same effect as logging out once |
| `JsText.Trim` | ats/src/pages/Signup.jsx:76 | `trim()` gives the infix of the string left once the whitespace at both ends is removed; it neither starts nor ends with whitespace, and it is empty exactly when the string is all whitespace |
| `JsText.PadStart` | ats/src/pages/Review.jsx:153 | `padStart(w, '0')` only prefixes fill characters up to width `w` and never truncates |
| `Patterns.MatchesEmailCharacterized` | ats/src/pages/Signup.jsx:82-85 | the e-mail pattern holds exactly when there is no whitespace, exactly one '@' with a non-empty part before it, and a '.' in the domain that is neither its first nor its last character |
| `Signup.WithField` | ats/src/pages/Signup.jsx:62-68 | `handleChange` sets the named field and leaves the other three as they were |
| `Signup.FirstFailure` | ats/src/pages/Signup.jsx:70-106 | a chain of checks reports the message of the first failing check, and reports nothing only if every check passes |
| `Signup.ValidateForm` | ats/src/pages/Signup.jsx:70-107 | `validateForm` is the first failure of the six checks in the source's order: empty field, name length, email, password length, match, letter and digit |
| `Signup.AcceptedExactly` | ats/src/pages/Signup.jsx:93-106 | a form is accepted exactly when the trimmed name has at least 2 characters, the email matches, the passwords are equal and at least 6 long, and the password holds a letter and a digit |
| `Signup.EmptyFieldFirst` | ats/src/pages/Signup.jsx:71-73 | any empty field gives "Please fill in all fields", whatever else is wrong |
| `Signup.BlankNameRejected` | ats/src/pages/Signup.jsx:76-78 | a non-empty all-whitespace name passes the first check and fails the trimmed-length check |
| `Signup.ThreeSpacesRejected` | ats/src/pages/Signup.jsx:76-78 | the name "   " is rejected as too short |
| `Signup.ShortPasswordBeforeMismatch` | ats/src/pages/Signup.jsx:88-95 | a password shorter than 6 fails on its length before the confirmation is compared |
| `Signup.SignupPage.HandleChange` | ats/src/pages/Signup.jsx:62-68 | stores the value in the named field and clears the error |
| `Signup.SignupPage.HandleSubmit` | ats/src/pages/Signup.jsx:109-133 | calls `signup` only for a valid form, with trimmed name and email and the untrimmed password; it navigates only on success and sets the source's messages otherwise |
| `SalesRetailers.AlphaFieldError` | ats/src/pages/SalesRetailers.jsx:131-137 | the name and location validators accept the empty string and any letters and spaces, and flag everything else |
| `SalesRetailers.ContactFieldError` | ats/src/pages/SalesRetailers.jsx:139-143 | exactly one of three outcomes: a non-digit or more than 10 characters; empty or exactly 10 digits (no error); 1 to 9 digits |
| `SalesRetailers.AmountFieldError` | ats/src/pages/SalesRetailers.jsx:257-260 | the amount validator accepts the empty string and digit strings only |
| `SalesRetailers.WithRetailerField` | ats/src/pages/SalesRetailers.jsx:144 | only the named retailer field changes |
| `SalesRetailers.WithSaleField` | ats/src/pages/SalesRetailers.jsx:261 | only the named sale field changes |
| `SalesRetailers.SalesRetailersPage.HandleRetailerChange` | ats/src/pages/SalesRetailers.jsx:129-145 | re-validates the changed field only and stores the value |
| `SalesRetailers.SalesRetailersPage.HandleAddRetailer` | ats/src/pages/SalesRetailers.jsx:148-182 | rejects a name equal to an existing one ignoring case, then a contact equal to an existing one, and then submits only if name and location are letters and spaces and the contact is exactly 10 digits; the form resets only after a completed add |
| `SalesRetailers.SalesRetailersPage.HandleSaleChange` | ats/src/pages/SalesRetailers.jsx:255-262 | validates only the amount and stores the value |
| `SalesRetailers.SalesRetailersPage.HandleAddSale` | ats/src/pages/SalesRetailers.jsx:264-277 | submits only with a date, a retailer and an all-digit amount; the form resets only after a completed add |
| `SalesRetailers.TotalSalesAppend` | ats/src/pages/SalesRetailers.jsx:335-339 | the sales total of two lists joined is the sum of their totals |
| `SalesRetailers.TotalSalesBounds` | ats/src/pages/SalesRetailers.jsx:335-339 | with no negative sales, the total is non-negative and at least every retailer's sales |
| `SalesRetailers.SalesOf` | ats/src/pages/SalesRetailers.jsx:337 | a retailer's sales are its `totalSales` when that is non-zero, else its `total_sales`; they are 0 exactly when both are 0 |
| `SalesRetailers.TotalSales` | ats/src/pages/SalesRetailers.jsx:335-339 | the sum of every retailer's sales: 0 when all are 0, and non-negative when none is negative |
| `SalesRetailers.TopIndex` | ats/src/pages/SalesRetailers.jsx:341-346 | the reduce ends on a retailer with maximal sales, and every later retailer has strictly less (ties go to the later one) |
| `SalesRetailers.TopRetailer` | ats/src/pages/SalesRetailers.jsx:341-347 | "No retailers yet" for an empty list, otherwise the name of the last retailer with maximal sales |
| `SalesRetailers.Points` | ats/src/pages/SalesRetailers.jsx:356-359 | maps each retailer to `{name or 'Unknown', sales}` in order |
| `SalesRetailers.PointOf` | ats/src/pages/SalesRetailers.jsx:356-359 | a bar carries the retailer's sales and its name, or "Unknown" for an empty name; it is never unnamed |
| `SalesRetailers.SalesByRetailer` | ats/src/pages/SalesRetailers.jsx:350-360 | one bar per retailer with positive sales; every bar is positive |
| `SalesRetailers.SalesByRetailerAppend` | ats/src/pages/SalesRetailers.jsx:350-360 | the chart of two lists joined is the first chart followed by the second: bars keep the retailers' order |
| `SalesRetailers.SalesByRetailerSingle` | ats/src/pages/SalesRetailers.jsx:350-360 | one retailer gives exactly its own bar when it has positive sales and no bar otherwise |
| `SalesRetailers.SalesByRetailerSnoc` | ats/src/pages/SalesRetailers.jsx:350-360 | appending a retailer appends its bar, if any, and changes no earlier bar |
| `SalesRetailers.SalesByRetailerComplete` | ats/src/pages/SalesRetailers.jsx:350-360 | every retailer with positive sales has its bar on the chart |
| `SalesRetailers.ChartAddsUpToTotal` | ats/src/pages/SalesRetailers.jsx:335-360 | with no negative sales, the chart's bars add up to `totalSales` |
| `Review.SequenceId` | ats/src/pages/Review.jsx:153 | an id is the prefix followed by decimal digits whose value is count + 1, padded with zeros to exactly three digits, and longer only without a leading zero |
| `Review.ReviewIdFormat` | ats/src/pages/Review.jsx:153 | a review id is "REV" and count + 1 zero-padded to three digits |
| `Review.FeedbackIdFormat` | ats/src/pages/Review.jsx:240 | a feedback id is "FB" and count + 1 zero-padded to three digits |
| `Review.SequenceIdInjective` | ats/src/pages/Review.jsx:153 | lists of different lengths get different ids |
| `Review.FirstReviewId` | ats/src/pages/Review.jsx:153 | the first review gets "REV001" |
| `Review.FortySecondFeedbackId` | ats/src/pages/Review.jsx:240 | the forty-second feedback entry gets "FB042" |
| `Review.SequenceIdWidens` | ats/src/pages/Review.jsx:153 | the thousandth review gets "REV1000": padding never truncates |
| `Review.FindReview` | ats/src/pages/Review.jsx:212 | `findIndex` gives the first review with the id, or -1 exactly when none has it |
| `Review.Answered` | ats/src/pages/Review.jsx:214-219 | sets the response, the response date and status "Responded", and keeps every other field |
| `Review.RespondTo` | ats/src/pages/Review.jsx:211-221 | only the first review with the id is answered; all others are unchanged, and nothing changes when no id matches |
| `Review.RespondToIdempotent` | ats/src/pages/Review.jsx:211-221 | saving the same response twice equals saving it once |
| `Review.RespondToShowsResponse` | ats/src/pages/Review.jsx:211-221 | after saving, the review found by that id shows the response and "Responded" |
| `Review.PendingAndResolvedDisjoint` | ats/src/pages/Review.jsx:302-303 | the pending and resolved counts add up to at most the number of reviews |
| `Review.AnsweredIsResolved` | ats/src/pages/Review.jsx:218 | an answered review counts as resolved and not as pending |
| `Review.RatingLabels` | ats/src/pages/Review.jsx:306-307 | bucket `k` is labelled "`k+1` Star" |
| `Review.RatingBucketsCover` | ats/src/pages/Review.jsx:306-309 | the five buckets add up to the number of reviews rated 1 to 5; with the unrated ones they make up all reviews |
| `Review.BucketsSplit` | ats/src/pages/Review.jsx:306-309 | the five rating counts sum to the count of reviews rated 1 to 5 |
| `Review.UnratedInNoBucket` | ats/src/pages/Review.jsx:308 | adding a review rated 0 (or otherwise outside 1 to 5) changes no bucket |
| `Review.RatedInItsBucket` | ats/src/pages/Review.jsx:308 | adding a review rated `v` adds one to bucket `v` and to no other |
| `Review.RatingData` | ats/src/pages/Review.jsx:306-309 | exactly five buckets, bucket `k` counting the reviews rated `k + 1`, each at most the number of reviews |
| `Review.CategoryPoints` | ats/src/pages/Review.jsx:310-313 | one point per category with its count, its caption with the first space turned into a line break, and its full name |
| `Review.CategoryData` | ats/src/pages/Review.jsx:310-314 | at most six points, each with a positive count |
| `Review.CategoryDataOrder` | ats/src/pages/Review.jsx:310-314 | the chart lists exactly the categories that have reviews, in `REVIEW_CATEGORIES` order |
| `Review.NameFieldError` | ats/src/pages/Review.jsx:132-135 | flags any value, the empty string included, that is not one or more letters or spaces |
| `Review.EmailFieldError` | ats/src/pages/Review.jsx:136-139 | flags any value the Signup e-mail pattern rejects |
| `Review.NameFieldRejects` | ats/src/pages/Review.jsx:132-135 | clearing the name is flagged, and so is a name that contains a digit |
| `Review.WithReviewField` | ats/src/pages/Review.jsx:140 | only the named review field changes |
| `Review.WithFeedbackField` | ats/src/pages/Review.jsx:226-228 | only the named feedback field changes |
| `Review.ReviewPage.HandleReviewChange` | ats/src/pages/Review.jsx:130-141 | validates the name and e-mail fields as they change and stores the value |
| `Review.ReviewPage.HandleAddReview` | ats/src/pages/Review.jsx:145-172 | submits only a complete form with no name or e-mail error, with id "REV" + padded count + 1 and today's date; the form resets only after a completed add |
| `Review.ReviewPage.HandleFeedbackChange` | ats/src/pages/Review.jsx:226-228 | stores the value in the named feedback field |
| `Review.ReviewPage.HandleAddFeedback` | ats/src/pages/Review.jsx:232-253 | submits only a complete feedback form, with id "FB" + padded count + 1; the form resets only after a completed add |
| `Review.ReviewPage.HandleOpenResponse` | ats/src/pages/Review.jsx:208-210 | opens the response dialog for the review with an empty response |
| `Review.ReviewPage.HandleResponseChange` | ats/src/pages/Review.jsx:904 | typing changes only the dialog's response text |
| `Review.ReviewPage.HandleCloseResponse` | ats/src/pages/Review.jsx:895 | closing resets the response dialog |
| `Review.ReviewPage.HandleSaveResponse` | ats/src/pages/Review.jsx:211-223 | issues an `updateReview` exactly when some review has the id, and applying it gives `RespondTo`; the dialog is then closed and emptied, unless that awaited call fails |
| `Review.ReviewPage.HandleDeleteConfirm` | ats/src/pages/Review.jsx:266-274 | opens the delete dialog with the item and its action |
| `Review.ReviewPage.HandleDeleteCancel` | ats/src/pages/Review.jsx:276-284 | resets the delete dialog to closed and empty |
| `Review.ReviewPage.HandleDeleteConfirmExecute` | ats/src/pages/Review.jsx:286-295 | runs the stored action if there is one, then resets the dialog, even when the action throws |
| `Review.ReviewPage.HandleDeleteReview` | ats/src/pages/Review.jsx:173-181 | asks to delete the review at that position, named "review from …" |
| `Review.ReviewPage.HandleDeleteFeedback` | ats/src/pages/Review.jsx:255-263 | asks to delete that feedback entry by its id, named "feedback from …" |

## Left out

- JWT signing and verification: an access token is just its claims. The secret, the signature and the expiry are not modelled.
- `crypto.randomBytes`: tokens come from a counter-based fresh-value oracle. Their unpredictability is not modelled.
- bcrypt internals: the hash is an injective constructor over the password. Salting, one-wayness and the 72-byte input limit are not modelled, so the model cannot state that the raw password is absent from the stored value. It can only state that the stored value is the hash term.
- SQL `DATE_ADD(NOW(), INTERVAL ?)` and the wall clock: the current time and the TTL are integer parameters, and user ids are parameters in place of `Date.now()`.
- Cookie attributes (HTTP-only, SameSite, Secure, maxAge) and the transport: a response only records whether the cookie is set or cleared.
- Store failures that `next(err)` passes to the error handler are not modelled.
- Concurrent refreshes of the same token, and the race between the email check and the insert in `register`: every handler runs to completion, one at a time.
- `avgRating`, `avgSaleAmount`, `toFixed` and the K-formatting: these are floating point.
- `monthlySales`, `monthlyData` and `formatDateTime`: these depend on locale date formatting.
- The retailer and sale edit and delete handlers (`handleEditRetailer`, `handleSaveEditRetailer`, `handleDeleteRetailer` and the sale counterparts), the review edit handlers, and the rating change handlers are not modelled.
- The typewriter timer, the redirect when already authenticated, `alert`, `window.confirm` and all rendering, styling and charts are not modelled.
- `UserModel.FirstByEmail`: the email lookup uses exact string equality. A MySQL collation that ignores case or trailing spaces would treat "Alice@x.com" as taken after "alice@x.com"; the model does not.
- `AuthController.FirstByToken`: the token lookup uses exact string equality. Collation case folding and trailing-space padding are not modelled.
- `SalesRetailers.TotalSales`: sales are integers. `Number(...)` of a string or fractional column value is not modelled.
- `SalesRetailers.SalesRetailersPage.HandleAddRetailer`: `toLowerCase` is modelled on ASCII letters only, so names that differ only in the case of non-ASCII letters count as different.
