# GlowCart core, modelled in Dafny

GlowCart is a React Native beauty storefront. This project models the parts of it that hold
rules rather than layout, and proves properties about them:

- **The session/cart store** (`AppContext`). The reducer `appReducer` is the pure function
  `Store.Step` over the state record `{user, isAuthenticated, products, cart, loading, error}`.
  The provider's `login`, `logout` and `updateCartQuantity` wrappers are modelled too. The
  AsyncStorage outcome is a parameter, as is the session record the app reads at startup.
  The cart queries `getCartTotal` and `getCartItemsCount` are `Store.CartTotal` and
  `Store.ItemsCount`. `Store.Valid` is the invariant every provider call keeps: one line per
  product, every quantity at least one, and `isAuthenticated` exactly when a user is present.
- **The beauty catalog** (`api.js`):
  - keyword classification over the 24-word list;
  - the relabelled fallback used when nothing classifies;
  - the merge that puts the three seed products (ids 1001 to 1003) first and drops repeated ids;
  - the query-dependent search filter.

  The upstream product list is an input. `None` stands for a failed request.
- **The mock `login` and `register` calls**: their ordered checks, the username taken from the
  email, and the split of a full name into first and last names. `Date.now()` readings are
  parameters.
- **Screen logic**:
  - the login and register form validators, including the email pattern `\S+@\S+\.\S+`, the
    password lookahead rule and the terms gate;
  - the per-field edit handlers and the password-strength meter;
  - the home screen's local search filter and its load and search handlers;
  - the detail screen's 1-to-10 quantity stepper, "Add to Bag" and stock line;
  - the star rows of both screens;
  - the product card's image fallback, discounted price and badges.

Strings are sequences of characters. `toLowerCase` lowers ASCII letters only. `trim` and the
regex `\s`/`\S` use the JavaScript white-space and line-terminator set (`Text.IsSpace`). Prices
and ratings are exact reals.

`logout()` dispatches `LOGOUT` only after the stored session is removed: a failed
`AsyncStorage.removeItem` skips the dispatch and swallows the error, so the state and its
authentication stay as they were (`Store.LogoutCall`).

## Model

| member | source | states |
|---|---|---|
| Store.LineOf | src/context/AppContext.js:34 | `cart.find` returns a line exactly when some line has the id; the line it returns is in the cart and has that id |
| Store.AddToCartOneLinePerProduct | src/context/AppContext.js:33-48 | after ADD_TO_CART a cart with one line per id still has one line per id, the product has a line, the item count rises by exactly 1, and the total rises by the listed price of the product's line |
| Store.AddToCartShape | src/context/AppContext.js:33-48 | for an id already in the cart, only that line gains one unit, in place and with line order kept; for a new id, `{...product, quantity: 1}` is appended at the end; no other state field changes |
| Store.IncrementSums | src/context/AppContext.js:38-42 | in a cart with unique lines, incrementing an id's line adds one unit and that line's price to the sums, or nothing when the id is absent |
| Store.RemoveFromCartEffect | src/context/AppContext.js:50-54 | REMOVE_FROM_CART leaves an order-preserving subsequence with no line for the id, keeps every other line, is a no-op for an absent id, keeps lines unique, subtracts the removed line's quantity, and changes only the cart |
| Store.RemoveSums | src/context/AppContext.js:53 | filtering out an id from a cart with unique lines lowers the item count by that line's quantity |
| Store.ClearCartEffect | src/context/AppContext.js:66-67 | CLEAR_CART empties the cart and changes nothing else |
| Store.LogoutResets | src/context/AppContext.js:69-73 | LOGOUT gives no user, not authenticated, an empty cart, not loading and no error, and keeps the product list |
| Store.SimpleActionEffects | src/context/AppContext.js:17-31 | SET_LOADING sets only loading; SET_ERROR sets the error and clears loading; SET_USER authenticates exactly for a present user; SET_PRODUCTS replaces products and clears loading; each touches no other field, and an unrecognised action (lines 75-76) returns the state unchanged |
| Store.SumsOfAppend | src/context/AppContext.js:154-162 | both reductions are sums over lines: appending a line adds its quantity to the count and its listed price times quantity to the total |
| Store.CountAtLeastLines | src/context/AppContext.js:160-162 | when every line holds at least one unit the item count is at least the number of lines, and it is 0 exactly for an empty cart |
| Store.Login | src/context/AppContext.js:108-116 | a failed storage write rethrows and leaves the state untouched; a successful one stores the user, authenticates, and changes nothing else |
| Store.LogoutCall | src/context/AppContext.js:118-125 | a failed storage remove is swallowed and leaves the state exactly as it was; a successful one deauthenticates, empties the cart and keeps the products, giving exactly the initial state with the products kept |
| Store.UpdateCartQuantityCall | src/context/AppContext.js:139-148 | a quantity at or below zero is exactly a removal; a positive quantity overwrites the id's line with exactly that quantity, keeps every other line and the order, leaves the cart as it is for an absent id, and changes only the cart |
| Store.LoadSession | src/context/AppContext.js:84-97 | a parsed stored record is put in the store as the user, authenticated exactly when present; nothing stored or any read or parse failure leaves the state alone; nothing but the user and the authentication flag ever changes |
| Store.InitialStateValid | src/context/AppContext.js:6-13 | the initial state satisfies the store invariant |
| Store.RunPreservesValid | src/context/AppContext.js:100-152 | every action function the provider exposes, with any storage outcome, keeps the store invariant |
| Catalog.FirstKeyword | src/services/api.js:44-47 | the keyword scan returns -1 exactly when no keyword occurs in the text, and otherwise the first keyword that occurs |
| Catalog.BeautyCategoryIsBeauty | src/services/api.js:44-47 | any product whose category is "beauty" is classified as a beauty product |
| Catalog.SeedsFacts | src/services/api.js:71-120 | the seed list holds ids 1001, 1002 and 1003 in that order, its ids are distinct, and every seed is classified as beauty |
| Catalog.Relabel | src/services/api.js:62-67 | the fallback sets category "beauty" and prefixes the description with "Premium beauty product: "; it prefixes the title with "Beauty " unless the title contains "Essence" (case-sensitive); every other field is kept, and the result classifies as beauty |
| Catalog.Fallback | src/services/api.js:62 | the fallback list is the relabelled first min(10, n) upstream products, in order |
| Catalog.Curated | src/services/api.js:58-68 | the classified products when there are any, else the fallback; either way every product classifies as beauty |
| Catalog.AppendNew | src/services/api.js:122-128 | the merge keeps the seeds as a prefix; the appended part is an order-preserving subsequence of the incoming list; every listed product comes from one of the inputs; unique ids stay unique |
| Catalog.AppendNewKeepsIds | src/services/api.js:122-128 | an id is in the merged list exactly when it is in the seeds or in the incoming list |
| Catalog.AppendedAreFirstOccurrences | src/services/api.js:123-128 | every appended product is the first incoming product with its id, and that id was not already present |
| Catalog.FirstOccurrencesAreAppended | src/services/api.js:123-128 | every incoming product that is the first with its id, when that id is not already present, is appended |
| Catalog.GetBeautyProducts | src/services/api.js:52-138 | a failed request gives the fixed fetch error; otherwise the list starts with the three seeds, has no repeated id, holds only beauty products, and reports its own length as total |
| Catalog.ClassifiedProductListed | src/services/api.js:58-128 | an upstream beauty product that is the first beauty product with its id, when that id is not a seed id, is in the catalog |
| Catalog.NoKeywordUpstreamUsesFallback | src/services/api.js:60-68 | when no upstream product classifies, the curated list is the fallback and the catalog is the seeds merged with it |
| Catalog.SearchProducts | src/services/api.js:141-167 | a failed request gives the fixed search error; a query that mentions a keyword (lower-cased) returns the results untouched; any other query returns exactly the beauty results as an order-preserving subsequence, each kept as many times as it occurs upstream; total is the length; in every successful case the products are an order-preserving subsequence of the results |
| Catalog.UntrustedSearchReturnsBeauty | src/services/api.js:158-161 | a query with no keyword only ever returns beauty products |
| MockAuth.Username | src/services/api.js:212 | the username is the part of the email before its first `@`: a prefix with no `@`, followed in the email by `@` when shorter, and the whole email when there is no `@` |
| MockAuth.Token | src/services/api.js:214 | the token is "mock-jwt-token-" followed only by decimal digits, with no leading zero, that read back as the timestamp |
| MockAuth.Login | src/services/api.js:192-220 | an empty email or password fails with "Email and password are required"; then a password under 6 characters fails with the length error; otherwise the demo user 1 "Beauty Lover" with the given email, the username `Username(email)` (the text before the first `@`), the avatar URL for that email and the token for the login time |
| MockAuth.SplitName | src/services/api.js:244-245 | the first name has no space; an empty last name means the first name is the whole trimmed name; otherwise first name, a space and last name rebuild the trimmed name |
| MockAuth.OneWordName | src/services/api.js:244-245 | a name without blanks is all first name and has an empty last name |
| MockAuth.SeveralWordName | src/services/api.js:244-245 | a blank-free first word, a space and the rest split into exactly that word and that rest |
| MockAuth.Register | src/services/api.js:223-260 | a missing field fails with "All fields are required"; then differing passwords fail with "Passwords do not match"; then a short password fails with "Password must be at least 6 characters"; success exactly when all are present, equal and at least 6 long, with the given id, email, split names, username, avatar URL and the token for the token time |
| Text.Trim | screens/auth/RegisterScreen.js:48-50 | the trimmed text is empty exactly for an all-blank input, otherwise starts and ends with a non-blank, and occurs in the input |
| Seqs.FilterCounts | src/services/api.js:158 | `Array.prototype.filter` keeps every element that passes the predicate exactly as many times as it occurs in the input, and drops every other element entirely |
| Text.TrimStripsOnlyBlanks | screens/auth/RegisterScreen.js:48-50 | the trimmed text sits in the input with only blanks before and after it, so nothing but the surrounding blanks is removed |
| Text.IndexOf | screens/main/HomeScreen.js:51-53 | the search returns -1 exactly when the text does not contain the pattern, and otherwise the first index where it occurs |
| Text.Split | src/services/api.js:244 | splitting yields at least one part, no part contains the separator, and joining the parts with it gives the input back |
| Text.DecimalString | src/services/api.js:214 | the decimal rendering of a number is a non-empty run of digits that reads back as the number and starts with 0 only for 0 itself |
| Validation.EmailError | screens/auth/LoginScreen.js:45-49 | no error exactly when the pattern `\S+@\S+\.\S+` occurs in the untrimmed input; the "required" error exactly when the trimmed input is empty; the "valid email" error exactly when the trimmed input is non-empty and the pattern does not occur |
| Validation.EmailPatternNotBlank | screens/auth/LoginScreen.js:45-49 | an input the pattern accepts is never blank and contains `@` and `.` |
| Validation.EmailPatternUnanchored | screens/auth/LoginScreen.js:47 | text on either side, blanks included, never spoils a match: the pattern is searched, not anchored |
| Validation.EmailPatternExample | screens/auth/LoginScreen.js:47 | "a@b.c " passes despite its trailing blank, and "a@b" fails |
| Validation.ClearError | screens/auth/LoginScreen.js:69-74 | clearing keeps the same fields, leaves the edited field's error empty, and changes no other field's error |
| LoginScreen.PasswordError | screens/auth/LoginScreen.js:52-56 | no password error exactly when the password has at least 6 characters; "Password is required" exactly for the empty password; the length error exactly for 1 to 5 characters |
| LoginScreen.ValidateForm | screens/auth/LoginScreen.js:41-60 | the new error map has an entry exactly for each failing field, holding that field's first failing message, and the form is valid exactly when the map is empty |
| LoginScreen.AcceptedFormPassesMockLogin | screens/auth/LoginScreen.js:77-84 | a form this screen accepts always passes the mock login, and its username is shorter than the email |
| LoginScreen.HandleInputChange | screens/auth/LoginScreen.js:62-75 | only the named field takes the new value, and only that field's error is blanked |
| RegisterScreen.MixedClassesMeansAllThree | screens/auth/RegisterScreen.js:66 | the lookahead rule implies a lowercase letter, an uppercase letter and a digit; on a single line it is exactly that |
| RegisterScreen.LineBreakDefeatsMixedRule | screens/auth/RegisterScreen.js:66 | "aB", a line break and "1" has all three classes yet fails the rule, because `.` does not cross line terminators |
| RegisterScreen.FullNameError | screens/auth/RegisterScreen.js:48-52 | no name error exactly when the trimmed name has at least 2 characters; "Full name is required" exactly for a blank name; the length error exactly when the trimmed name has 1 character |
| RegisterScreen.PasswordError | screens/auth/RegisterScreen.js:62-68 | no password error exactly when the password has at least 6 characters and passes the lookahead rule; the required, length and character-class messages each exactly in their own case, in that order |
| RegisterScreen.ConfirmError | screens/auth/RegisterScreen.js:71-75 | no confirmation error exactly when the confirmation is non-empty and equals the password; "Please confirm your password" exactly for an empty confirmation; the mismatch message exactly for a non-empty one that differs |
| RegisterScreen.ValidateForm | screens/auth/RegisterScreen.js:44-85 | with terms not accepted it fails and leaves the errors as they were; otherwise the map has an entry exactly for each failing field with its first failing message, and the form is valid exactly when no field fails |
| RegisterScreen.AcceptedFormPassesMockRegister | screens/auth/RegisterScreen.js:102-107 | a form this screen accepts always passes the mock register |
| RegisterScreen.HandleInputChange | screens/auth/RegisterScreen.js:87-100 | only the named field takes the new value, and only that field's error is blanked |
| RegisterScreen.PasswordStrength | screens/auth/RegisterScreen.js:135-163 | no rating for an empty password; otherwise the score is the number of criteria met, between 1 and 5, with the colour and label of that score |
| RegisterScreen.TopScoreMeetsAll | screens/auth/RegisterScreen.js:143-147 | the score is at most 5, and is 5 exactly when the password has at least 6 characters and every character class |
| RegisterScreen.AppendNeverLowersScore | screens/auth/RegisterScreen.js:143-147 | typing one more character never lowers the score |
| RegisterScreen.LabelMonotone | screens/auth/RegisterScreen.js:149-161 | a higher score never gets a lower label in the order Weak, Medium, Strong, Very Strong |
| RegisterScreen.AcceptedPasswordIsStrong | screens/auth/RegisterScreen.js:143-161 | a password the form accepts scores at least 4 and is labelled Strong or Very Strong |
| HomeScreen.VisibleProducts | screens/main/HomeScreen.js:45-57 | a blank query shows the full list; any other query shows exactly the products whose lower-cased title, description or present brand contains the lower-cased, untrimmed query, as an order-preserving subsequence in which each shown product appears as many times as in the list |
| HomeScreen.FilterIgnoresCase | screens/main/HomeScreen.js:50-54 | queries that lower-case alike show the same products |
| HomeScreen.ExtendingQueryNarrows | screens/main/HomeScreen.js:50-54 | once the query is non-blank, typing more shows a subsequence of what was shown |
| HomeScreen.LoadProducts | screens/main/HomeScreen.js:59-66 | a failed load alerts the fetch error and leaves the store alone; a successful one stores exactly the curated catalog page, a list that starts with the seeds, has distinct ids and only beauty products, clears loading and changes nothing else |
| HomeScreen.HandleSearch | screens/main/HomeScreen.js:77-86 | a blank query does nothing; a failed search alerts and leaves the store alone |
| HomeScreen.SearchReplacesProducts | screens/main/HomeScreen.js:77-86 | a successful search on a non-blank query raises no alert, stores exactly the products of the search page, which are a subsequence of the results, clears loading and changes nothing else |
| HomeScreen.HandlersPreserveValid | screens/main/HomeScreen.js:59-86 | loading and searching keep the store invariant |
| Stars.Ceil | src/components/ProductCard.js:74 | `Math.ceil` gives the least integer at or above the rating |
| Stars.Row | src/components/ProductCard.js:58-79 | for a non-negative rating, the filled stars are its whole part, a half star appears exactly when there is a fractional part (for any rating, negative ones included), and the empty stars fill up to 5; no filled stars for ratings at or below 0, no empty stars at or above 5 |
| Stars.FiveIconsInRange | screens/main/ProductDetailScreen.js:68-92 | a rating between 0 and 5 always draws exactly five icons |
| Stars.WholeRatings | screens/main/ProductDetailScreen.js:264-285 | the fixed review rows draw 5 filled stars, and 4 filled and 1 empty; 4.5 draws 4 filled and a half |
| Stars.RowMonotone | src/components/ProductCard.js:58-79 | a higher rating never draws fewer filled stars or more empty ones |
| Stars.RatingStars | src/components/ProductCard.js:55-56 | a missing or zero rating draws nothing; any other rating draws its star row |
| ProductCard.ImageSource | src/components/ProductCard.js:45 | the card loads a non-empty thumbnail, else a non-empty first image, else the placeholder; anything but the placeholder comes from the product |
| ProductCard.ImageSourceNeverEmpty | src/components/ProductCard.js:45 | the card never asks for an empty image address |
| ProductCard.DiscountedPrice | src/components/ProductCard.js:46-48 | with a truthy discount the shown price is the list price reduced by that percentage; otherwise it is the list price |
| ProductCard.Round | src/components/ProductCard.js:105 | `Math.round` gives an integer within one half of the input, halves rounding up |
| ProductCard.DiscountBadge | src/components/ProductCard.js:102-108 | the discount badge appears exactly for a positive discount and shows its rounded percentage |
| ProductCard.BadgeMatchesPriceCut | src/components/ProductCard.js:46-48 | for a positive price and a discount between 0 and 100, the badge appears exactly when the shown price is below the list price, which never drops below zero |
| ProductDetail.Gallery | screens/main/ProductDetailScreen.js:41 | any images array, even an empty one, is the gallery; without one the gallery is the single thumbnail |
| ProductDetail.GalleryStartsWithCardImage | screens/main/ProductDetailScreen.js:41 | when the card falls back to the first image, the gallery opens on that same picture; without an images array the gallery is exactly the card's thumbnail |
| ProductDetail.LowStockCanBeAdded | src/components/ProductCard.js:109 | a product with the Low Stock badge is shown in stock on the detail screen and its Add to Bag button is enabled; an in-stock product without the badge has more than 5 units |
| ProductDetail.UpdateQuantity | screens/main/ProductDetailScreen.js:61-66 | the change is applied exactly when the new quantity lies in 1 to 10, and otherwise the quantity is unchanged |
| ProductDetail.StepperStaysInRange | screens/main/ProductDetailScreen.js:61-66 | from any quantity in 1 to 10, no sequence of presses leaves that range |
| ProductDetail.StepperUndo | screens/main/ProductDetailScreen.js:61-66 | plus then minus, or minus then plus, returns to the start away from the bounds |
| ProductDetail.AddOneRaisesQuantity | src/context/AppContext.js:33-48 | in a cart with unique lines, one ADD_TO_CART raises the product's line quantity by one, counting a missing line as 0 |
| ProductDetail.AddToBagEffect | screens/main/ProductDetailScreen.js:46-49 | adding n units keeps one line per product, raises the item count by n and the product's own line by n, and gives the product a line when n > 0 |
| ProductDetail.AddToBagKeepsValid | screens/main/ProductDetailScreen.js:46-49 | adding n units changes only the cart and keeps the store invariant |
| ProductDetail.ButtonFollowsStock | screens/main/ProductDetailScreen.js:177-337 | for a non-negative stock, "Add to Bag" is disabled exactly when the product shows out of stock; a negative stock shows out of stock with the button enabled |

## Left out

- Network I/O is not modelled: the axios instance, its interceptors and timeout, and the
  `getProduct` and `getCategories` passthroughs. The upstream product list, or its absence for a
  failed request, is a parameter.
- AsyncStorage and JSON are not modelled. Storage calls become a `StorageOk | StorageFail`
  parameter. The startup read becomes a `SessionRead`; a parsed record is assumed to be a user
  or `null`. Other JSON values the real `JSON.parse` could return are not represented.
- The one-second mock delay is left out. Both `Date.now()` readings in `register` (the id and the
  token) and the one in `login` are separate parameters, because the clock is not deterministic.
- Money formatting is left out: `toFixed(2)`, `parseFloat`, the "You save" line and the bag
  total of the detail screen. Prices are exact reals, so float rounding is not modelled.
- Presentation is left out: styles, Alerts (only their messages are returned), navigation, and
  the Header, Button, Input, Onboarding and Profile components. The terms checkbox's alert is
  not modelled beyond the failing result.
- The race in which a late async completion overwrites newer state is left out. The model
  applies each call to the state as it stands.
- The detail screen's image-indicator index and gallery scrolling are left out, as are the
  home screen's `refreshing` flag and the "Added to Cart" alert.
- Text.ToLower: lowers ASCII letters only, because JavaScript's full Unicode case mapping is
  out of scope. Non-ASCII letters keep their case in the search and classification texts.
- MockAuth.Login: string lengths count Unicode scalar values, whereas JavaScript counts UTF-16
  code units. Password-length checks can differ for characters outside the Basic Multilingual
  Plane. The same holds for the length rules in LoginScreen.PasswordError,
  RegisterScreen.PasswordError and RegisterScreen.FullNameError, for the `password.length < 6`
  check in MockAuth.Register and for the `password.length >= 6` criterion of
  RegisterScreen.PasswordStrength.
- Text.Trim: its own contract does not say that only the surrounding blanks go, to keep every
  caller's proof small. Text.TrimStripsOnlyBlanks states that part.
- Stars.Row: a NaN rating is not representable with reals. A rating is either absent or a
  real number.
