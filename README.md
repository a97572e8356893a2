# A verified model of the timexpert shop back end

The back end of the timexpert watch shop is a Spring Boot service over a relational database. This project models its business core in Dafny and proves properties of that model. The core covers:

- product stock, search filters, images and visibility;
- shopping carts;
- orders: stock reservation on placement, cancellation, status changes and the VNPay return;
- the VNPay request signature and its check;
- reviews and the per-product rating count;
- users, including registration, password changes and OAuth2 login;
- one-time password reset codes;
- invoices, favourites and the names of uploaded files.

The database is the class `Store.Database`. It has one field per table:

- categories;
- products;
- orders;
- carts, keyed by user;
- reviews;
- users;
- favourites;
- invoices;
- reset tokens.

Each service call is a method that `modifies` the database. Its contract ties the new tables and the answer to a function of the old tables, such as an `Outcome` (new tables plus `Ok`/`Err` answer) or a failure function paired with a state function. Lemmas then prove about those functions what the services promise.

A `@Transactional` method that throws an unchecked exception is rolled back. The model states this as "every error leaves every table unchanged" and implements it with `Database.Restore`.

`Store.Consistent` collects the integrity rules the services keep:

- stock is never negative;
- every order line names a known product;
- a cart has one line per product, each with a positive quantity;
- every review belongs to a known product;
- each product's review count is the number of its visible reviews, and its average is zero exactly when that count is zero;
- usernames and e-mail addresses are unique;
- there is one favourite per (user, product) pair;
- there is one invoice per order.

Money is an integer count of hundredths, the scale of the source's `DECIMAL(10,2)` columns. Times are integer instants.

Things the services get from outside become parameters of the model:

- the clock;
- random draws;
- UUIDs;
- BCrypt hashing and matching;
- `URLEncoder`;
- the raw HMAC-SHA512 bytes;
- the completed-order query used by reviews.

Source paths below are relative to the repository root.

## Model

| member | source | states |
|---|---|---|
| Store.Database.Restore | src/main/java/com/graduationproject/backend/service/OrderService.java:102 | a transaction rollback puts every table back to exactly the saved state |
| Store.NewId | src/main/java/com/graduationproject/backend/entity/Order.java:18 | an IDENTITY key is positive, unused and above every key already in the table |
| Entities.FirstPrimary | src/main/java/com/graduationproject/backend/entity/Product.java:80-83 | the index of the first image flagged primary, or none exactly when no image is primary |
| Entities.PrimaryImageUrl | src/main/java/com/graduationproject/backend/entity/Product.java:75-86 | no URL exactly when there are no images; otherwise the URL of the first primary image, or of the first image when none is primary |
| Text.EqualsIgnoreCaseIsLowerEquality | src/main/java/com/graduationproject/backend/controller/ProductController.java:81 | case-insensitive equality holds exactly when the lower-cased strings are equal |
| Text.TrimEmptyIff | src/main/java/com/graduationproject/backend/service/FileStorageService.java:73-76 | a string trims to nothing exactly when every character is whitespace or a control character |
| Text.TrimIdempotent | src/main/java/com/graduationproject/backend/service/ProductService.java:96 | trimming a trimmed string changes nothing |
| Text.LastIndexOf | src/main/java/com/graduationproject/backend/service/FileStorageService.java:43-54 | the position of the last occurrence of a character, with none after it, or none exactly when it does not occur |
| Text.SplitOnce | src/main/java/com/graduationproject/backend/service/UserService.java:246 | one part exactly when the separator is absent; otherwise two parts that rejoin around the first separator to give the input |
| Text.ParseInt | src/main/java/com/graduationproject/backend/service/OrderService.java:387-393 | a parsed transaction reference always lies in the 32-bit int range |
| Text.ParseIntToString | src/main/java/com/graduationproject/backend/service/OrderService.java:387-393 | parsing the decimal text of any 32-bit int gives that int back |
| Text.NatToStringInjective | src/main/java/com/graduationproject/backend/service/VnPayService.java:38-39 | distinct numbers have distinct decimal texts |
| Text.LessTotal | src/main/java/com/graduationproject/backend/service/VnPayService.java:68-69 | String.compareTo orders any two distinct strings one way round |
| ProductRepository.DecreaseStock | src/main/java/com/graduationproject/backend/repository/ProductRepository.java:34-36 | the conditional UPDATE touches one row exactly when the product exists with enough stock, and only then lowers that stock by the quantity |
| ProductRepository.IncreaseStock | src/main/java/com/graduationproject/backend/repository/ProductRepository.java:38-40 | the UPDATE touches one row exactly when the product exists and raises its stock by the quantity |
| ProductRepository.StockUpdatesTouchOneRow | src/main/java/com/graduationproject/backend/repository/ProductRepository.java:34-40 | both updates keep the key set and every other product, and change nothing of the target but its stock |
| ProductRepository.IncreaseUndoesDecrease | src/main/java/com/graduationproject/backend/repository/ProductRepository.java:34-40 | an increase by the same quantity undoes a successful decrease |
| ProductRepository.StockStaysNonNegative | src/main/java/com/graduationproject/backend/repository/ProductRepository.java:35 | the stock guard keeps every stock non-negative under both updates |
| ProductService.DecreaseStock | src/main/java/com/graduationproject/backend/service/ProductService.java:324-333 | success exactly when the product exists with enough stock; a missing product is NotFound, too little stock OperationFailed, and a failure changes nothing |
| ProductService.IncreaseStock | src/main/java/com/graduationproject/backend/service/ProductService.java:335-341 | success exactly when the product exists; otherwise OperationFailed and nothing changes |
| ProductService.NormaliseFilter | src/main/java/com/graduationproject/backend/service/ProductService.java:92-108 | NotFound exactly for an unknown category; negative or missing bounds become 0 and 9999999999.99; the search name is the trimmed, lower-cased name, or empty when none is given; the same rule serves the public and the administrator's listings |
| ProductService.NormaliseFilterIdempotent | src/main/java/com/graduationproject/backend/service/ProductService.java:353-375 | normalising an already normalised filter gives the same filter |
| ProductService.TrimLower | src/main/java/com/graduationproject/backend/service/ProductService.java:358 | trimming and lower-casing commute, so the order of the two steps does not matter |
| ProductService.KeptUrlsExact | src/main/java/com/graduationproject/backend/service/ProductService.java:203-214 | each kept URL is non-blank and already trimmed, and every non-blank request entry is kept in trimmed form |
| ProductService.ImagesFromOrdered | src/main/java/com/graduationproject/backend/service/ProductService.java:211 | the stored images are numbered 0, 1, 2 ... in request order |
| ProductService.PrimaryAfterImageUpdate | src/main/java/com/graduationproject/backend/service/ProductService.java:195-216 | after an image update the product's primary URL is the requested one if it was kept, otherwise the first kept URL, otherwise none |
| ProductService.BuildImages | src/main/java/com/graduationproject/backend/service/ProductService.java:203-214 | the loop stores exactly the kept URLs in order, each flagged primary when it equals the requested primary URL |
| ProductService.StaleImageUrls | src/main/java/com/graduationproject/backend/service/ProductService.java:170-173 | a URL is deleted from storage exactly when it was an old image URL absent from the request list |
| ProductService.CreateProductWithImages | src/main/java/com/graduationproject/backend/service/ProductService.java:127-147 | a non-positive category is BadRequest, an unknown one NotFound; on success a new key holds the request's product and nothing else changes; the integrity rules are kept |
| ProductService.NewProductKeepsConsistency | src/main/java/com/graduationproject/backend/service/ProductService.java:139 | a new product with no reviews and a non-negative stock keeps every integrity rule |
| ProductService.UpdateProductWithImages | src/main/java/com/graduationproject/backend/service/ProductService.java:149-178 | NotFound for an unknown product, BadRequest for a non-positive category, NotFound for an unknown new category; on success only that product changes and the answer is the stale URLs to delete |
| ProductService.ToggleProductVisibility | src/main/java/com/graduationproject/backend/service/ProductService.java:312-321 | an unknown product is NotFound; otherwise only its visibility flips and the answer is the product afterwards |
| ProductService.ToggleTwice | src/main/java/com/graduationproject/backend/service/ProductService.java:315 | toggling twice restores the table |
| ProductController.SortDirection | src/main/java/com/graduationproject/backend/controller/ProductController.java:81 | ascending exactly when the parameter is "asc" in any case, descending otherwise |
| ProductController.DefaultDirections | src/main/java/com/graduationproject/backend/controller/ProductController.java:79 | the public default "desc" sorts descending; "asc" and "ASC" sort ascending |
| ProductController.SortField | src/main/java/com/graduationproject/backend/controller/ProductController.java:82-85 | the field is the caller's own spelling when it names an allowed field up to case, otherwise the fallback |
| ProductController.SortFieldsAreColumns | src/main/java/com/graduationproject/backend/controller/ProductController.java:161-165 | whatever is asked for, both listings sort by one of their allowed fields or their fallback |
| ProductController.SortFieldExamples | src/main/java/com/graduationproject/backend/controller/ProductController.java:82-85 | "PRICE" is kept as written, "createdAt" and an unknown "password" fall back to createdAt on the public listing |
| ProductController.GetProductById | src/main/java/com/graduationproject/backend/controller/ProductController.java:100-106 | the product only when it exists and is visible; a hidden product is NotFound like a missing one |
| ProductController.HideProduct | src/main/java/com/graduationproject/backend/controller/ProductController.java:131-140 | an unknown product is NotFound; a hidden product is answered unchanged; a visible one is toggled; nothing else changes |
| ProductController.HideSpec | src/main/java/com/graduationproject/backend/controller/ProductController.java:134-139 | hiding leaves the product invisible, every other column and product as they were, and a second hide changes nothing |
| ProductController.HiddenIsNotFound | src/main/java/com/graduationproject/backend/controller/ProductController.java:102-104 | after hiding, the public product page reports NotFound |
| FileStorageService.NewStorage | src/main/java/com/graduationproject/backend/service/FileStorageService.java:25-37 | the base URL ends in "/", extends the configured one by at most that slash, and is kept as is if it already had one |
| FileStorageService.NewStorageIdempotent | src/main/java/com/graduationproject/backend/service/FileStorageService.java:28 | normalising the base URL twice is normalising it once |
| FileStorageService.Extension | src/main/java/com/graduationproject/backend/service/FileStorageService.java:43-54 | no extension exactly when there is no name or no dot; otherwise the lower-cased suffix from the last dot, with no further dot |
| FileStorageService.StoreFile | src/main/java/com/graduationproject/backend/service/FileStorageService.java:39-70 | failures are runtime failures; success answers the base URL followed by the stored name |
| FileStorageService.StoredNameHasNoDotDot | src/main/java/com/graduationproject/backend/service/FileStorageService.java:56-58 | a stored name built from a UUID and an extension never contains ".." |
| FileStorageService.StoreFileFailsOnlyWhenEmpty | src/main/java/com/graduationproject/backend/service/FileStorageService.java:40-42 | storing fails exactly for an empty upload: the path check never fires |
| FileStorageService.DeleteTarget | src/main/java/com/graduationproject/backend/service/FileStorageService.java:72-90 | a file is targeted exactly for a non-blank URL under the base URL, and the target is the rest of the URL |
| FileStorageService.DeleteTargetsStoredFile | src/main/java/com/graduationproject/backend/service/FileStorageService.java:86-89 | deleting the URL a store answered targets exactly the stored name |
| PaymentService.RefundPayment | src/main/java/com/graduationproject/backend/service/PaymentService.java:22-36 | a positive order id or a non-empty transaction reference reports success; failure only with neither |
| PaymentService.RefundRefusedOnlyWithoutReference | src/main/java/com/graduationproject/backend/service/PaymentService.java:29 | a refund is refused exactly when the transaction id is null or empty and the order id is not positive |
| PaymentService.RefundSucceedsForStoredOrders | src/main/java/com/graduationproject/backend/service/PaymentService.java:22-36 | every stored order, whose id is positive, can be refunded |
| VnPayService.HexShape | src/main/java/com/graduationproject/backend/service/VnPayService.java:111-114 | the hex text has two lower-case hex digits per byte |
| VnPayService.HexOf | src/main/java/com/graduationproject/backend/service/VnPayService.java:111-114 | the loop builds the hex text of the MAC bytes |
| VnPayService.HmacSHA512 | src/main/java/com/graduationproject/backend/service/VnPayService.java:105-119 | an empty key is reported as a failure; otherwise 128 hex digits of the MAC |
| VnPayService.SortedListUnique | src/main/java/com/graduationproject/backend/service/VnPayService.java:68-69 | there is only one strictly sorted list of a set of parameter names |
| VnPayService.SortKeys | src/main/java/com/graduationproject/backend/service/VnPayService.java:68-69 | the names come out strictly ascending under String.compareTo, each name exactly once |
| VnPayService.BuildStrings | src/main/java/com/graduationproject/backend/service/VnPayService.java:72-97 | the loop builds the canonical signed string and the query string of the parameter map |
| VnPayService.JoinSegments | src/main/java/com/graduationproject/backend/service/VnPayService.java:72-97 | empty values are skipped and every non-last key is followed by "&", for signed and query string alike |
| VnPayService.TrailingSeparator | src/main/java/com/graduationproject/backend/service/VnPayService.java:92-95 | a last key with an empty value leaves a trailing "&" after the key before it |
| VnPayService.CreatePaymentUrl | src/main/java/com/graduationproject/backend/service/VnPayService.java:36-102 | the URL is the pay URL, the query string of the thirteen parameters and the HMAC of their canonical string, or the hash failure |
| VnPayService.ValidateReturnSignature | src/main/java/com/graduationproject/backend/service/VnPayService.java:122-152 | false for a missing or empty hash; otherwise whether the HMAC of the other parameters matches the hash up to case; the hash parameter is removed |
| VnPayService.SignThenValidate | src/main/java/com/graduationproject/backend/service/VnPayService.java:150-151 | a parameter map signed with the shop's secret, in either letter case, is accepted |
| VnPayService.WrongHashRefused | src/main/java/com/graduationproject/backend/service/VnPayService.java:150-151 | any other hash is refused |
| VnPayService.TxnRefRoundTrip | src/main/java/com/graduationproject/backend/service/VnPayService.java:39 | the transaction reference sent with a payment parses back to the order id |
| OrderService.CanTransition | src/main/java/com/graduationproject/backend/service/OrderService.java:492-496 | each allowed change raises the status rank and never leads to PENDING; COMPLETED and CANCELED allow none |
| OrderService.TransitionsMoveForward | src/main/java/com/graduationproject/backend/service/OrderService.java:492-496 | every allowed status change moves strictly forward and never back to PENDING |
| OrderService.FinalStatusesAreTerminal | src/main/java/com/graduationproject/backend/service/OrderService.java:492-496 | no status change is allowed out of the final statuses COMPLETED and CANCELED |
| OrderService.CancelRulesAgree | src/main/java/com/graduationproject/backend/service/OrderService.java:323-327 | the statuses cancelOrder accepts are exactly those the status table lets move to CANCELED |
| OrderService.ReserveSpec | src/main/java/com/graduationproject/backend/service/OrderService.java:207-233 | reservation succeeds exactly when every counted line names a product with enough stock for its running demand; then each stock drops by its demand, the lines carry the current prices and the total is their sum |
| OrderService.ReserveOkIff | src/main/java/com/graduationproject/backend/service/OrderService.java:217-220 | reservation fails exactly when some counted line's product is unknown or short of stock |
| OrderService.ReserveErrSticks | src/main/java/com/graduationproject/backend/service/OrderService.java:212-220 | once a prefix of the lines fails, the whole reservation fails the same way |
| OrderService.ReserveLines | src/main/java/com/graduationproject/backend/service/OrderService.java:122-144 | the loop's result is the reservation function, and only the products table changes |
| OrderService.RestockSpec | src/main/java/com/graduationproject/backend/service/OrderService.java:337-346 | restocking fails exactly when some line's product is unknown; otherwise each stock rises by its ordered quantity |
| OrderService.RestockUndoesReserve | src/main/java/com/graduationproject/backend/service/OrderService.java:465-475 | restocking the lines of a reservation restores the stock exactly |
| OrderService.RestockKeepsStock | src/main/java/com/graduationproject/backend/service/OrderService.java:525-536 | restocking a stored order always succeeds and only raises stock |
| OrderService.RestoreStock | src/main/java/com/graduationproject/backend/service/OrderService.java:337-346 | the restocking loop computes the restock function and changes only the products table |
| OrderService.PlacingKeepsConsistency | src/main/java/com/graduationproject/backend/service/OrderService.java:114-168 | storing an order whose lines name known products, with stock only lowered, keeps every integrity rule |
| OrderService.PaymentLinkFails | src/main/java/com/graduationproject/backend/service/OrderService.java:159 | the payment link fails exactly when the gateway has no hash secret |
| OrderService.BuildPaymentLink | src/main/java/com/graduationproject/backend/service/OrderService.java:247-251 | the link is the gateway's payment URL for the order id and total, failing exactly without a secret |
| OrderService.CreateOrderFromSelectedItems | src/main/java/com/graduationproject/backend/service/OrderService.java:179-274 | fails exactly as the failure function says, leaving every table unchanged; on success a new order under an unused key, stock reserved, payment info present exactly when VNPay is used; integrity kept |
| OrderService.SelectedPayment | src/main/java/com/graduationproject/backend/service/OrderService.java:247-254 | VNPay with a gateway gives a payment link; COD, and VNPay without a gateway, give none; the only refusal is VNPay with an empty hash secret |
| OrderService.SkippingIsFiltering | src/main/java/com/graduationproject/backend/service/OrderService.java:209-211 | the loop that skips lines of quantity zero or less reserves, prices and totals exactly as the plain loop over the positive lines, with the same first failure |
| OrderService.CartRequests | src/main/java/com/graduationproject/backend/service/OrderService.java:122-126 | one line request per cart item |
| OrderService.CreateOrderFromCart | src/main/java/com/graduationproject/backend/service/OrderService.java:103-175 | fails exactly as the failure function says with nothing changed; on success a new PENDING order under an unused key, stock reserved, the cart deleted; integrity kept |
| OrderService.CartPayment | src/main/java/com/graduationproject/backend/service/OrderService.java:153-162 | VNPay gives the PENDING_VNPAY_ reference, COD none, and VNPay without a configured service is refused |
| OrderService.CartPlacingKeepsConsistency | src/main/java/com/graduationproject/backend/service/OrderService.java:133-168 | placing an order from a cart keeps every integrity rule |
| OrderService.CancelOrder | src/main/java/com/graduationproject/backend/service/OrderService.java:316-367 | the method computes the cancel outcome on the tables |
| OrderService.CancelKeepsConsistency | src/main/java/com/graduationproject/backend/service/OrderService.java:331-356 | cancelling keeps every integrity rule |
| OrderService.CancelSucceedsWhenAllowed | src/main/java/com/graduationproject/backend/service/OrderService.java:329-356 | a stored order in a cancellable status is always cancelled, with restock and refund succeeding |
| OrderService.CancelRefusedUnlessAllowed | src/main/java/com/graduationproject/backend/service/OrderService.java:362-366 | an unknown order is NotFound, a non-cancellable one BadRequest, and neither changes anything |
| OrderService.CancelAfterPlacingRestoresStock | src/main/java/com/graduationproject/backend/service/OrderService.java:337-346 | cancelling a freshly placed order succeeds and gives back exactly the stock it took |
| OrderService.UpdateOrderStatus | src/main/java/com/graduationproject/backend/service/OrderService.java:499-560 | the method computes the status-update outcome on the tables |
| OrderService.UpdateStatusSucceedsIff | src/main/java/com/graduationproject/backend/service/OrderService.java:504-522 | success exactly when the order exists and the status is unchanged or the change is allowed; a refusal changes nothing; success stores and answers the order in the new status |
| OrderService.UpdateStatusKeepsConsistency | src/main/java/com/graduationproject/backend/service/OrderService.java:525-551 | a status update keeps every integrity rule, and a real change moves the status forward |
| OrderService.Without | src/main/java/com/graduationproject/backend/service/OrderService.java:429-439 | the cart keeps exactly the items whose product was not in the paid order |
| OrderService.HandleVnpayReturn | src/main/java/com/graduationproject/backend/service/OrderService.java:371-487 | the method computes the return-handling outcome on the tables |
| OrderService.SettlePendingOrder | src/main/java/com/graduationproject/backend/service/OrderService.java:409-479 | a pending order becomes PAID with the gateway transaction number on code 00, with its products removed from the cart, and CANCELED with its stock restored otherwise |
| OrderService.ReturnLeavesNoPendingOrder | src/main/java/com/graduationproject/backend/service/OrderService.java:401-458 | an accepted return never answers a PENDING order |
| OrderService.ReturnIdempotent | src/main/java/com/graduationproject/backend/service/OrderService.java:401-406 | a repeated return notification changes nothing more and answers the same |
| OrderService.ReturnKeepsConsistency | src/main/java/com/graduationproject/backend/service/OrderService.java:371-487 | handling a return keeps every integrity rule |
| OrderService.WithoutKeepsLinesValid | src/main/java/com/graduationproject/backend/service/OrderService.java:433-439 | removing paid products from a cart keeps one line per product with positive quantities |
| PasswordResetService.GenerateOtp | src/main/java/com/graduationproject/backend/service/PasswordResetService.java:42-49 | the code has six characters, each the decimal digit drawn for its position |
| PasswordResetService.CreatePasswordResetOtp | src/main/java/com/graduationproject/backend/service/PasswordResetService.java:53-73 | exactly one new token is stored, under an unused key, holding the e-mail, the code and the expiry after the configured minutes |
| PasswordResetService.NewTokenIsLatest | src/main/java/com/graduationproject/backend/service/PasswordResetService.java:80 | a token that expires no earlier than the others for its e-mail is the one the lookup finds |
| PasswordResetService.LatestUnique | src/main/java/com/graduationproject/backend/service/PasswordResetService.java:80 | at most one token is the latest for an e-mail |
| PasswordResetService.FindLatest | src/main/java/com/graduationproject/backend/service/PasswordResetService.java:80-81 | the lookup answers the latest token, and none exactly when the e-mail has no token |
| PasswordResetService.ResetPasswordWithOtp | src/main/java/com/graduationproject/backend/service/PasswordResetService.java:78-94 | the method computes the reset outcome as written, with the rollback of the expired-token delete |
| PasswordResetService.ResetSpec | src/main/java/com/graduationproject/backend/service/PasswordResetService.java:78-94 | success exactly when the latest token is unexpired, matches the code and the e-mail has a user; a failure changes nothing; success sets that user's password and deletes that token |
| PasswordResetService.SingleTokenIsSingleUse | src/main/java/com/graduationproject/backend/service/PasswordResetService.java:93 | with one token per e-mail, a code works once |
| PasswordResetService.CodeNeedsAnotherTokenToWorkAgain | src/main/java/com/graduationproject/backend/service/PasswordResetService.java:93 | a code works twice only if another unexpired token with the same code exists |
| PasswordResetService.ExpiredTokenSurvives | src/main/java/com/graduationproject/backend/service/PasswordResetService.java:83-86 | an expired latest token is refused and, rolled back, stays in the table |
| PasswordResetService.ExpiredTokenKeptExample | src/main/java/com/graduationproject/backend/service/PasswordResetService.java:84-85 | one expired token for a@b stays stored after a reset attempt |
| PasswordResetService.ResetPasswordWithOtpCorrected | src/main/java/com/graduationproject/backend/service/PasswordResetService.java:83-86 | the method computes the reset outcome with the expired-token delete committed |
| PasswordResetService.CorrectedRemovesExpired | src/main/java/com/graduationproject/backend/service/PasswordResetService.java:83-86 | with the delete committed, an expired latest token is refused and removed, and nothing else changes |
| PasswordResetService.CorrectedAgreesOtherwise | src/main/java/com/graduationproject/backend/service/PasswordResetService.java:83-86 | the two versions differ exactly when the latest token has expired |
| UserService.UserByEmail | src/main/java/com/graduationproject/backend/service/UserService.java:100-102 | the user with the e-mail, or none exactly when no user has it |
| UserService.FindByEmail | src/main/java/com/graduationproject/backend/service/UserService.java:100-102 | the lookup answers the user with that e-mail |
| UserService.RegisterUser | src/main/java/com/graduationproject/backend/service/UserService.java:64-88 | fails with the failure function's error and changes nothing, or stores a new LOCAL BUYER under an unused key |
| UserService.RegisterSpec | src/main/java/com/graduationproject/backend/service/UserService.java:66-71 | registration succeeds exactly when username and e-mail are both unused; a used username is reported first; success keeps every integrity rule |
| UserService.CreateUserByAdmin | src/main/java/com/graduationproject/backend/service/UserService.java:327-367 | like registration, with the given role or BUYER by default |
| UserService.CreateByAdminAgreesWithRegister | src/main/java/com/graduationproject/backend/service/UserService.java:329-336 | the administrator's creation fails exactly when registration would, with the same reason as IllegalArgument, and defaults to a BUYER |
| UserService.Authenticate | src/main/java/com/graduationproject/backend/service/UserService.java:105-111 | a user is answered exactly when one has the username and the password matches |
| UserService.UpdateUserProfile | src/main/java/com/graduationproject/backend/service/UserService.java:114-130 | the method computes the profile-update outcome on the tables |
| UserService.ProfileSpec | src/main/java/com/graduationproject/backend/service/UserService.java:119-123 | only the five profile columns of that user change; username, e-mail, password, role and provider stay |
| UserService.UpdatePassword | src/main/java/com/graduationproject/backend/service/UserService.java:133-142 | the method computes the password-update outcome on the tables |
| UserService.UpdatePasswordSpec | src/main/java/com/graduationproject/backend/service/UserService.java:133-142 | success exactly when a user has the e-mail; only that user's password changes; a failure changes nothing |
| UserService.ChangePassword | src/main/java/com/graduationproject/backend/service/UserService.java:145-165 | the method computes the password-change outcome on the tables |
| UserService.ChangePasswordSpec | src/main/java/com/graduationproject/backend/service/UserService.java:151-164 | success exactly when the user exists, the current password matches and the new one differs; then only the password changes |
| UserService.DeleteUserById | src/main/java/com/graduationproject/backend/service/UserService.java:320-324 | the method computes the delete outcome on the tables |
| UserService.DeleteSpec | src/main/java/com/graduationproject/backend/service/UserService.java:320-324 | success exactly when the user exists; only that row goes; a failure changes nothing; integrity kept |
| UserService.RoleNamed | src/main/java/com/graduationproject/backend/service/UserService.java:435 | BUYER and ADMIN are recognised in any case |
| UserService.UpdateUserRole | src/main/java/com/graduationproject/backend/service/UserService.java:432-437 | the method computes the role-update outcome on the tables |
| UserService.RoleSpec | src/main/java/com/graduationproject/backend/service/UserService.java:432-437 | success exactly when the user exists and the role names BUYER or ADMIN in any case; only the role changes |
| UserService.ProviderNamed | src/main/java/com/graduationproject/backend/service/UserService.java:183-188 | each provider name is recognised in any case |
| UserService.UsernamePrefix | src/main/java/com/graduationproject/backend/service/UserService.java:232 | the prefix before the first "@", none only for a non-empty string of "@"s |
| UserService.CandidateInjective | src/main/java/com/graduationproject/backend/service/UserService.java:237 | different counters give different username candidates |
| UserService.GeneratedUsernameSpec | src/main/java/com/graduationproject/backend/service/UserService.java:232-240 | the generated username is unused, is the first free candidate, and is the prefix itself when that is free |
| UserService.GenerateUsername | src/main/java/com/graduationproject/backend/service/UserService.java:236-239 | the loop ends and answers the generated username |
| UserService.SplitNameRejoins | src/main/java/com/graduationproject/backend/service/UserService.java:246-248 | the first name has no space and, with the last name, rejoins to the full name |
| UserService.ProcessOAuth2User | src/main/java/com/graduationproject/backend/service/UserService.java:168-278 | fails with the failure function's error and changes nothing; otherwise answers the user with the e-mail, existing or new, in the OAuth2 state |
| UserService.OAuth2KeepsConsistency | src/main/java/com/graduationproject/backend/service/UserService.java:201-274 | an OAuth2 login keeps every integrity rule |
| UserService.OAuth2ProviderMismatchRefused | src/main/java/com/graduationproject/backend/service/UserService.java:194-198 | a returning user is accepted exactly when the login provider is the stored one |
| UserService.RefreshName | src/main/java/com/graduationproject/backend/service/UserService.java:201-216 | only the returning user's name columns are rewritten |
| InvoiceService.InvoiceOf | src/main/java/com/graduationproject/backend/service/InvoiceService.java:125-128 | the order's invoice, or none exactly when it has none |
| InvoiceService.InvoiceNumber | src/main/java/com/graduationproject/backend/service/InvoiceService.java:136 | "INV-" followed by the first eight UUID characters in upper case |
| InvoiceService.EnsureInvoiceExists | src/main/java/com/graduationproject/backend/service/InvoiceService.java:124-140 | the existing invoice, NotFound for an unknown order, or a new invoice for the order's total under an unused key |
| InvoiceService.EnsureSpec | src/main/java/com/graduationproject/backend/service/InvoiceService.java:124-140 | afterwards the order has exactly one invoice, a new one carries the order total, a second call changes nothing, and integrity is kept |
| InvoiceService.EnsureUnknownOrder | src/main/java/com/graduationproject/backend/service/InvoiceService.java:131 | the call fails exactly when the order has no invoice and does not exist |
| InvoiceService.Lines | src/main/java/com/graduationproject/backend/service/InvoiceService.java:76-86 | one invoice line per order item |
| InvoiceService.SubTotal | src/main/java/com/graduationproject/backend/service/InvoiceService.java:90-94 | the loop sums the line totals |
| InvoiceService.SubTotalIsLinesTotal | src/main/java/com/graduationproject/backend/service/InvoiceService.java:90-94 | the subtotal is the sum of price times quantity over the order's items |
| InvoiceService.Detail | src/main/java/com/graduationproject/backend/service/InvoiceService.java:38-107 | the detail fails exactly for an invoice whose order is gone; otherwise it carries the invoice number, the order's user, lines, subtotal, total and payment method, with fee and discount zero |
| InvoiceService.MapInvoiceToDetail | src/main/java/com/graduationproject/backend/service/InvoiceService.java:38-107 | the method computes the detail function |
| InvoiceService.GetInvoiceDetails | src/main/java/com/graduationproject/backend/service/InvoiceService.java:109-122 | fails exactly when the invoice cannot be ensured or its order is gone, changing nothing; otherwise the invoice table is as the ensure step leaves it, and the answer is the detail of the order's invoice, with its subtotal and the order's total |
| InvoiceService.DetailDefaults | src/main/java/com/graduationproject/backend/service/InvoiceService.java:81-82 | a missing customer or product is shown as N/A |
| FavoriteService.FavoriteOf | src/main/java/com/graduationproject/backend/service/FavoriteService.java:58-62 | the pair's record, or none exactly when the pair is no favourite |
| FavoriteService.AddFavorite | src/main/java/com/graduationproject/backend/service/FavoriteService.java:56-77 | an existing pair answers its record; a missing user or product is NotFound; otherwise one new record under an unused key |
| FavoriteService.AddSpec | src/main/java/com/graduationproject/backend/service/FavoriteService.java:56-77 | afterwards the pair is a favourite, exactly one record was added if it was not, adding again changes nothing, and integrity is kept |
| FavoriteService.InsertKeepsUnique | src/main/java/com/graduationproject/backend/service/FavoriteService.java:72-76 | inserting a new pair keeps one record per pair and adds one key |
| FavoriteService.RemoveFavorite | src/main/java/com/graduationproject/backend/service/FavoriteService.java:106-116 | the method computes the removal outcome on the tables |
| FavoriteService.RemoveSpec | src/main/java/com/graduationproject/backend/service/FavoriteService.java:108-115 | success exactly for the owner of an existing record; a refusal changes nothing; success removes exactly that record |
| FavoriteService.RemoveFavoriteByProduct | src/main/java/com/graduationproject/backend/service/FavoriteService.java:120-125 | the method computes the removal-by-product outcome |
| FavoriteService.RemoveByProductSpec | src/main/java/com/graduationproject/backend/service/FavoriteService.java:120-125 | success exactly when the pair is a favourite; afterwards it is not; a failure changes nothing |
| FavoriteService.RemoveByProductUndoesAdd | src/main/java/com/graduationproject/backend/service/FavoriteService.java:56-125 | removing by product undoes adding a new pair |
| CartService.LineOf | src/main/java/com/graduationproject/backend/service/CartService.java:86-90 | the position of the product's line, or none exactly when the cart has none |
| CartService.GetOrCreateCart | src/main/java/com/graduationproject/backend/service/CartService.java:33-40 | an existing cart is answered unchanged; otherwise an empty cart is stored for the user |
| CartService.DeleteCart | src/main/java/com/graduationproject/backend/service/CartService.java:215-221 | the user's cart is removed and nothing else |
| CartService.AddItemToCart | src/main/java/com/graduationproject/backend/service/CartService.java:79-111 | the method computes the add outcome as written: the stored cart gets the added line, the answer is the cached cart's line list |
| CartService.AddItemToCartCorrected | src/main/java/com/graduationproject/backend/service/CartService.java:104-110 | the same new state, answered with the cart as stored |
| CartService.AddAnswerAsWritten | src/main/java/com/graduationproject/backend/service/CartService.java:97-110 | as written, the answer is the stored cart exactly when the product already had a line; for a new product it is the old lines, without the product |
| CartService.AddAnswerMissesNewLine | src/main/java/com/graduationproject/backend/service/CartService.java:97-110 | a concrete add of a new product whose answer lacks the stored new line |
| CartService.CorrectedAddSpec | src/main/java/com/graduationproject/backend/service/CartService.java:92-110 | the intended answer holds the product at its old quantity plus the added one, at the current price, with every other product unchanged |
| CartService.AddOkIff | src/main/java/com/graduationproject/backend/service/CartService.java:81-90 | adding succeeds exactly for a positive quantity of a known product whose stock covers the new cart quantity; a failure changes nothing |
| CartService.AddSpec | src/main/java/com/graduationproject/backend/service/CartService.java:92-107 | the product's quantity rises by q within stock at the current price; other lines, other carts and other tables stay; one line per product |
| CartService.RemoveItemFromCart | src/main/java/com/graduationproject/backend/service/CartService.java:165-193 | the method computes the removal outcome on the tables |
| CartService.RemoveOkIff | src/main/java/com/graduationproject/backend/service/CartService.java:168-179 | removal succeeds exactly when the user's cart has a line for the product; a failure changes nothing |
| CartService.RemoveSpec | src/main/java/com/graduationproject/backend/service/CartService.java:182-189 | the product's line goes, one line fewer, other lines stay, and an emptied cart is deleted |
| CartService.UpdateItemQuantity | src/main/java/com/graduationproject/backend/service/CartService.java:113-136 | the method computes the quantity-update outcome on the tables |
| CartService.UpdateOkIff | src/main/java/com/graduationproject/backend/service/CartService.java:117-125 | a positive update succeeds exactly when the cart has the line and the product's stock covers the quantity |
| CartService.UpdateSpec | src/main/java/com/graduationproject/backend/service/CartService.java:127-132 | the line gets the quantity and the current price; other lines and carts stay |
| CartService.UpdateToZeroIsRemove | src/main/java/com/graduationproject/backend/service/CartService.java:115 | a non-positive quantity is the same as removing the item |
| CartService.Unlisted | src/main/java/com/graduationproject/backend/service/CartService.java:204-211 | the items kept by a batch removal are exactly those whose product is not in the batch |
| CartService.RemoveItemsFromCartBatch | src/main/java/com/graduationproject/backend/service/CartService.java:194-213 | the method computes the batch removal as written, deciding on deletion from the stale item list |
| CartService.BatchKeepsEmptiedCart | src/main/java/com/graduationproject/backend/service/CartService.java:201-211 | a cart whose only item is removed by the batch stays stored, empty; the corrected version deletes it |
| CartService.BatchAgreesUnlessEmptied | src/main/java/com/graduationproject/backend/service/CartService.java:201-211 | the as-written and corrected batch removals differ exactly when the batch empties a non-empty cart |
| CartService.RemoveItemsFromCartBatchCorrected | src/main/java/com/graduationproject/backend/service/CartService.java:194-213 | the method computes the corrected batch removal, which deletes a cart the batch empties |
| CartService.BatchRemovedSpec | src/main/java/com/graduationproject/backend/service/CartService.java:201-211 | after the corrected batch no listed product remains, unlisted quantities are unchanged, and a cart kept is non-empty and stamped |
| CartService.BatchRemovedFrame | src/main/java/com/graduationproject/backend/service/CartService.java:196 | a missing or empty batch or a missing cart changes nothing; only that cart changes; integrity kept |
| CartService.Present | src/main/java/com/graduationproject/backend/service/CartService.java:60-61 | the lines whose product exists, every such line kept, all lines when every product exists |
| CartService.Details | src/main/java/com/graduationproject/backend/service/CartService.java:58-71 | exactly one detail per line whose product exists, in cart order, each with the line's quantity and the product's price, name, primary image URL and stock |
| CartService.DetailsComplete | src/main/java/com/graduationproject/backend/service/CartService.java:58-71 | every line whose product exists shows in the view with its product's details |
| CartService.CartView | src/main/java/com/graduationproject/backend/service/CartService.java:42-77 | no view exactly without a cart; the view carries the cart's timestamp and exactly the details of the lines whose product exists, in cart order |
| CartService.CartOperationsKeepConsistency | src/main/java/com/graduationproject/backend/service/CartService.java:79-213 | adding, removing, updating and batch removal, both as written and corrected, keep every integrity rule |
| CartService.BatchAsWrittenFrame | src/main/java/com/graduationproject/backend/service/CartService.java:193-212 | the batch as written changes only the carts and keeps each cart's lines well formed |
| ReviewService.Recount | src/main/java/com/graduationproject/backend/service/ProductReviewService.java:159-171 | only that product's count and average change, and they agree with its visible reviews |
| ReviewService.UpdateRatingAndCount | src/main/java/com/graduationproject/backend/service/ProductReviewService.java:159-171 | the method computes the recount on the tables |
| ReviewService.FirstUnreviewed | src/main/java/com/graduationproject/backend/service/ProductReviewService.java:87-98 | the first completed order not yet reviewed for the product, or none exactly when all are |
| ReviewService.FindEligibleOrder | src/main/java/com/graduationproject/backend/service/ProductReviewService.java:87-98 | the loop answers the first unreviewed completed order |
| ReviewService.AddReview | src/main/java/com/graduationproject/backend/service/ProductReviewService.java:76-135 | fails with the failure function's error and changes nothing, or stores a new review under an unused key and recounts |
| ReviewService.AddFailsExactly | src/main/java/com/graduationproject/backend/service/ProductReviewService.java:100-108 | for a known user and product, adding succeeds exactly when some completed order is unreviewed; none at all is BadRequest |
| ReviewService.AddKeepsConsistency | src/main/java/com/graduationproject/backend/service/ProductReviewService.java:116-132 | adding keeps every integrity rule and counts the new visible review |
| ReviewService.DeleteReviewForAdmin | src/main/java/com/graduationproject/backend/service/ProductReviewService.java:180-188 | the method computes the administrator's delete outcome |
| ReviewService.DeleteUserReview | src/main/java/com/graduationproject/backend/service/ProductReviewService.java:191-205 | the method computes the owner's delete outcome |
| ReviewService.DeleteKeepsConsistency | src/main/java/com/graduationproject/backend/service/ProductReviewService.java:187 | deleting removes the review and keeps every integrity rule |
| ReviewService.DeleteUserReviewOwnerOnly | src/main/java/com/graduationproject/backend/service/ProductReviewService.java:197-199 | someone else's review is AccessDenied and unchanged; the owner's delete is the administrator's delete |
| ReviewService.UpdateUserReview | src/main/java/com/graduationproject/backend/service/ProductReviewService.java:208-237 | the method computes the update outcome on the tables |
| ReviewService.UpdateSpec | src/main/java/com/graduationproject/backend/service/ProductReviewService.java:214-229 | success exactly for the owner on the same product and order; only the review's rating and comment change, and the product row, whose average the model keeps only as zero or not, stays as it was; a refusal changes nothing |
| ReviewService.SetReviewVisibility | src/main/java/com/graduationproject/backend/service/ProductReviewService.java:239-250 | the method computes the visibility outcome on the tables |
| ReviewService.VisibilityKeepsConsistency | src/main/java/com/graduationproject/backend/service/ProductReviewService.java:244-248 | only the review's flag changes and every integrity rule holds |
| ReviewService.VisibilityCount | src/main/java/com/graduationproject/backend/service/ProductReviewService.java:248 | the product's review count moves by one exactly when the flag really changes |

## Left out

- Searching and paging: the `LIKE` name search, Spring Data `Pageable` and sorting, and the JPA `Specification` listings of orders and users are database queries. Only the filter normalisation and the sort-field choice before them are modelled.
- ReviewService.UpdateSpec: states that the product table is unchanged by a review update. That holds in the model because the average is kept only as "zero or a rounded mean". In the program, a new rating changes the HALF_UP mean of the visible reviews; the model abstracts that movement away. The review count, and whether the average is zero, do stay the same.
- ReviewService.Recount: the average rating is a `Double` rounded HALF_UP, which is floating point. The model states only the exact visible-review count and that the average is zero exactly when the count is zero.
- Case mapping, whitespace and digits cover ASCII only. `toLowerCase`, `toUpperCase`, `equalsIgnoreCase` and `trim` are exact there; other Unicode letters are left as they are. `Text.ParseInt` accepts only the ASCII digits 0-9, where `Integer.parseInt` also accepts other Unicode decimal digits.
- Integer widths. Ids, money and stock are unbounded integers, so `int` overflow of a stock increase and `long` overflow of the amount are not modelled. The one 32-bit limit that decides behaviour, `Integer.parseInt` of the transaction reference, is modelled.
- DTO mapping, column lengths, `@CreationTimestamp` and `@UpdateTimestamp` values, and the unique barcode column are not modelled. So the bodies of `mapToDTO` and its relatives, the `createdAt` stamps, and a barcode clash on save are absent.
- File storage does no I/O here: `StringUtils.cleanPath`, `Path.normalize`, the copy into the upload directory and the file deletion are left out. Only the base URL, the stored name and the deletion target are modelled.
- E-mail sending in `createPasswordResetOtp` is left out; a failure there is caught and does not change the stored token.
- `findCompletedOrdersByUserAndProduct` is not part of `OrderService.java`. The completed orders `addReview` draws on are a parameter: a list in the query's order.
- The `AuthProvider`, `Role` and `BadRequestException` files are not part of this model. The providers are LOCAL, GOOGLE and FACEBOOK and the roles BUYER and ADMIN, as `User.java` and the services use them. `BadRequestException` is taken as unchecked, since it is thrown from methods without a `throws` clause.
- IDENTITY keys are chosen by `Store.NewId`, above every key in use. The database's own sequence, and its tie-break rule for equal token expiry dates, are not modelled: `findFirstByEmailOrderByExpiryDateDesc` is the latest token with the highest key among equals.
- BCrypt encoding and matching, UUIDs, `SecureRandom` digits and the clock are parameters. So are `URLEncoder`, the raw HMAC-SHA512 bytes and the GMT+7 `yyyyMMddHHmmss` time stamps of a payment request.
- The foreign-key effects of deleting a user are not modelled. The model removes the user row only.
- MySQL's case-insensitive collation of the unique username and e-mail columns is not modelled. Uniqueness is exact string equality.
- In `processOAuth2User`, the `DataIntegrityViolationException` and generic catches around the final save are not modelled. A null `registrationId` is not modelled.
- CartService.AddItemToCart, CartService.UpdateItemQuantity and CartService.RemoveItemFromCart answer the cart whose lines the `CartDTO` is built from, not the `CartDTO` itself. `CartService.CartView` models that conversion separately.
- `createOrderFromCart` answers an `OrderDTO`. The payment reference it computes is modelled, but the DTO is not.
- Concurrency and isolation are not modelled. Each transaction runs alone and all-or-nothing, so two requests cannot interleave between a stock check and its conditional UPDATE.
- Other parts of the repository are not part of this model:
  - the duplicate return handler in `VnPayController.java`;
  - statistics and its JPQL aggregates;
  - the Dialogflow webhook;
  - security, JWT and OAuth2 plumbing;
  - barcode and e-mail services;
  - the category, recommendation and example services;
  - the other controllers.
- `updateProductWithImages` compares old image URLs with the request's raw entries. An entry with surrounding spaces is stored trimmed, yet its old image is still reported stale. The model keeps this comparison as written.

## Findings

| source | as written | input that shows it | evidently intended | confidence | as-written member | corrected member |
|---|---|---|---|---|---|---|
| src/main/java/com/graduationproject/backend/service/CartService.java:97-110 | A product not yet in the cart is saved as a new `CartItem` with `setCart(cart)`; it is never added to the cart's EAGER item list. The answer is then built from `findByUserId`, which in the same session returns that cached cart, so the new line is missing from the answer. | User 1's cart holds only `CartItem(7, 1, 100)`; add product 8, quantity 1, with stock 1 or more | The answer shows the cart as stored, new line included (by `cart.addItem` or a reload) | not executed; medium (depends on the session returning the cached cart without refreshing its list) | CartService.AddAnswerMissesNewLine | CartService.CorrectedAddSpec |
| src/main/java/com/graduationproject/backend/service/CartService.java:201-211 | The bulk JPQL delete runs, then `findById` returns the cart already in the session. That cart has an EAGER item list that was loaded before the delete. Its list is not empty, so the cart is kept and only its `lastUpdated` is set. | Cart of user 1 holding only `CartItem(7, 1, 100)`; batch `[7]` | A cart the batch empties is deleted, like `removeItemFromCart` does | not executed; medium (depends on the persistence context not being cleared after the `@Modifying` query) | CartService.BatchKeepsEmptiedCart | CartService.BatchRemovedSpec |
| src/main/java/com/graduationproject/backend/service/PasswordResetService.java:83-86 | The expired token is deleted. Then the unchecked `BadRequestException` is thrown inside the same `@Transactional` method, so the delete is rolled back and the expired token stays. | Token `1 := ("a@b", "123456", expires 100)`, reset attempt at time 200 | The expired token is removed and the request refused | not executed; medium (assumes `BadRequestException` is a `RuntimeException`) | PasswordResetService.ExpiredTokenKeptExample | PasswordResetService.CorrectedRemovesExpired |
