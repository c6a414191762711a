# billing-app core, modelled in Dafny

This project models the deterministic logic of a small multi-tenant billing
application. The application has a Laravel (PHP) backend and an Expo/React
Native (TypeScript) client. Each source file of the core has its own module:

- `InvoiceItems` (`invoice_items.dfy`) covers the invoice line-item
  controller. `store` derives the line total, the tax amount and the total
  with tax from quantity, unit price and tax percentage. `update` merges a
  partial request with the stored row, recomputes the three amounts whenever
  an input is supplied, and writes the result back in place. The stored row
  is a class. The validation rules are a set of failed fields, not
  preconditions. Money is exact `real`.
- `Support` (`tenancy.dfy`) covers the per-request `Tenancy` holder: one
  mutable slot for the current tenant.
- `ResolveTenant` (`resolve_tenant.dfy`) covers the tenant-resolution
  middleware. The slug comes from the trimmed `X-Tenant` header, otherwise
  from the first label of the host, otherwise it is `default`. Every
  character outside `a-z0-9-` is then replaced by `-`, and only after that is
  the slug lower-cased. The middleware looks the tenant up and stores it in
  the holder.
- `Http` (`http.dfy`) covers the API origin with its trailing slashes
  removed, the in-memory bearer token and the default header that follows
  it, and the request interceptor. The interceptor adds a missing
  `Authorization` header and rewrites relative URLs to `/api/...`, dropping
  one leading `api` segment.
- `Shell` (`shell.dfy`) covers the application shell's display helpers:
  `titleFromPath`, `getInitials` with JavaScript `split(/\s+/)`, the
  name and e-mail fall-backs for the signed-in user, and the test that marks
  a navigation entry active.
- `Dashboard` (`dashboard.dfy`) covers the dashboard series:
  - the window of the last `n` calendar months and the `YYYY-MM` keys;
  - the two accumulation loops of `makeSeries`, which run over a dictionary
    keyed by month;
  - `toNum`, `rgba` (`parseInt(…, 16)`) and `clamp`.
- `Login` (`login.dfy`) covers the login form:
  - the e-mail regular expression, as an explicit pattern predicate proved
    equivalent to a character-level rule;
  - the rule that enables the submit button;
  - the `loading`/`err` transitions of one submit, as a class.
- `Text` (`text.dfy`) holds shared helpers:
  - `Option`;
  - the white-space classes of PHP `trim` and of JavaScript `trim`/`\s`;
  - ASCII case mapping;
  - splitting on one character (PHP `explode`, JavaScript `split`);
  - decimal rendering of integers.

The JavaScript runtime's date parsing (`new Date(string)`) and
`Number(string)` are passed to the dashboard model as a `Runtime` value.
The current month is a parameter. The outcome of the login call is a
parameter. The value read from token storage is a parameter.

## Model

| member | source | states |
|---|---|---|
| InvoiceItems.Store | billing-backend/app/Http/Controllers/InvoiceItemController.php:19-47 | creation succeeds exactly when no validation rule fails, and otherwise reports the failing fields. A description must hold a character outside PHP's `trim` white space and be at most 255 characters long. The created item has the request's inputs, stores an absent tax percentage as 0, satisfies the validation ranges, and has total = quantity × unit price, tax = pct/100 × total, total with tax = total + tax |
| InvoiceItems.StoreWithoutTax | billing-backend/app/Http/Controllers/InvoiceItemController.php:29-44 | a request without a tax percentage stores 0 %, no tax, and a total with tax equal to the total |
| InvoiceItems.AmountBounds | billing-backend/app/Http/Controllers/InvoiceItemController.php:22-30 | for inputs in the validated ranges, 0 ≤ tax ≤ total ≤ total with tax ≤ 2 × total |
| InvoiceItems.UpdateRecomputes | billing-backend/app/Http/Controllers/InvoiceItemController.php:69-76 | an update that supplies quantity, unit price or tax percentage takes each missing input from the stored item and recomputes all three amounts consistently from the merged inputs |
| InvoiceItems.TaxOnlyUpdate | billing-backend/app/Http/Controllers/InvoiceItemController.php:69-76 | an update of only the tax percentage keeps the total and recomputes the tax from the stored quantity and unit price |
| InvoiceItems.UpdateWithoutInputs | billing-backend/app/Http/Controllers/InvoiceItemController.php:69-79 | an update that supplies none of the three inputs leaves quantity, unit price, tax percentage and the three amounts unchanged |
| InvoiceItems.UpdateKeepsInvoice | billing-backend/app/Http/Controllers/InvoiceItemController.php:61-79 | an update never changes the invoice id, and keeps a description it was not sent |
| InvoiceItems.UpdatePreservesInvariant | billing-backend/app/Http/Controllers/InvoiceItemController.php:61-79 | a valid update of a valid item whose amounts agree with its inputs yields such an item again |
| InvoiceItems.DescriptionOkTrim | billing-backend/app/Http/Controllers/InvoiceItemController.php:21 | the description rule holds exactly when PHP's `trim` leaves something and the text has at most 255 characters |
| InvoiceItems.AsWrittenWithoutNullTax | billing-backend/app/Http/Controllers/InvoiceItemController.php:69-79 | when the tax percentage is not sent as null, the update as written (`isset`, the `??` fallbacks, writing back every sent key) stores exactly the corrected item, on any database |
| InvoiceItems.AsWrittenWithNullTax | billing-backend/app/Http/Controllers/InvoiceItemController.php:65-79 | for every valid update of a valid, consistent item that sends the tax percentage as null, a strict database refuses the write. A lenient one stores the corrected item with a 0 % rate, which is consistent exactly when the corrected item has no tax |
| InvoiceItems.NullTaxUpdateAsWritten | billing-backend/app/Http/Controllers/InvoiceItemController.php:65-79 | as written, an update of an 18 % item that sends only `tax_percentage: null` passes validation. A strict database then refuses the write, and a lenient one leaves a 0 % rate beside 18 of tax. The corrected reading leaves the item unchanged |
| InvoiceItems.InvoiceItem.constructor | billing-backend/app/Http/Controllers/InvoiceItemController.php:38-47 | the stored row holds exactly the created item |
| InvoiceItems.InvoiceItem.Update | billing-backend/app/Http/Controllers/InvoiceItemController.php:59-79 | returns the failing fields and writes nothing when there are any. Otherwise the row becomes the merged and recomputed item. It never changes the invoice id, leaves every input and amount alone when no input is supplied, and preserves validity with agreeing amounts |
| Support.Tenancy.constructor | billing-backend/app/Support/Tenancy.php:9 | a fresh holder has no tenant |
| Support.Tenancy.Set | billing-backend/app/Support/Tenancy.php:11 | the slot holds exactly the given tenant, or none |
| Support.Tenancy.Id | billing-backend/app/Support/Tenancy.php:12 | the id is present exactly when a tenant is held, and is that tenant's id |
| Support.Tenancy.CurrentTenant | billing-backend/app/Support/Tenancy.php:13 | returns exactly what is held |
| Support.SetThenRead | billing-backend/app/Support/Tenancy.php:11-13 | after `set(t)`, `tenant()` is `t` and `id()` is `t`'s id, or null for no tenant, whatever was held before |
| Text.Trim | billing-backend/app/Http/Middleware/ResolveTenant.php:16 | the trimmed text is no longer than the input and neither starts nor ends with a character of the class. It is empty exactly when every character is in the class |
| Text.TrimInfix | billing-backend/app/Http/Middleware/ResolveTenant.php:16 | the trimmed text is a contiguous part of the input, and everything before and after it is of the class: trimming removes characters at the two ends only |
| Text.ExplodeFirst | billing-backend/app/Http/Middleware/ResolveTenant.php:21-23 | the first piece of `explode` is the text before the first separator, or the whole string when there is none |
| Text.JoinExplode | billing-backend/app/Http/Middleware/ResolveTenant.php:21 | joining the pieces of `explode` with the separator gives back the string |
| ResolveTenant.Sanitize | billing-backend/app/Http/Middleware/ResolveTenant.php:35 | `preg_replace('/[^a-z0-9\-]/', '-', …)` keeps the length, keeps each slug character and replaces each other character with `-` |
| ResolveTenant.NormalizeShape | billing-backend/app/Http/Middleware/ResolveTenant.php:35 | normalisation keeps the length and keeps slug characters. Every other character becomes `-`, and the output uses only `a-z0-9-` |
| ResolveTenant.NormalizeFixesSlugs | billing-backend/app/Http/Middleware/ResolveTenant.php:35 | a string already made of slug characters is unchanged by normalisation |
| ResolveTenant.NormalizeIdempotent | billing-backend/app/Http/Middleware/ResolveTenant.php:35 | normalising twice is normalising once |
| ResolveTenant.NormalizeUpperCase | billing-backend/app/Http/Middleware/ResolveTenant.php:35 | replacement happens before lower-casing, so `Acme` becomes `-cme` |
| ResolveTenant.SlugShape | billing-backend/app/Http/Middleware/ResolveTenant.php:30-35 | the final slug is never empty and uses only `a-z0-9-` |
| ResolveTenant.HeaderWins | billing-backend/app/Http/Middleware/ResolveTenant.php:16-19 | a non-empty trimmed `X-Tenant` header is the slug, whatever the host |
| ResolveTenant.SlugFromHost | billing-backend/app/Http/Middleware/ResolveTenant.php:19-32 | without a usable header the host's slug is used, or `default` when the host names none |
| ResolveTenant.DefaultIsNormal | billing-backend/app/Http/Middleware/ResolveTenant.php:31-35 | `default` is unchanged by normalisation |
| ResolveTenant.FirstLabel | billing-backend/app/Http/Middleware/ResolveTenant.php:21-25 | a host of two or more labels has a dot, and its first label is the text before the first dot |
| ResolveTenant.LongHostSlug | billing-backend/app/Http/Middleware/ResolveTenant.php:20-23 | a host of three or more labels names the text before its first dot |
| ResolveTenant.ShortHostSlug | billing-backend/app/Http/Middleware/ResolveTenant.php:24-25 | a two-label host names its first label, unless that label is exactly `www` |
| ResolveTenant.DotlessHostSlug | billing-backend/app/Http/Middleware/ResolveTenant.php:20-26 | a host without a dot names nothing |
| ResolveTenant.SingleLabelHostIsDefault | billing-backend/app/Http/Middleware/ResolveTenant.php:19-32 | without a usable header, a host such as `localhost` gives the slug `default` |
| ResolveTenant.Lookup | billing-backend/app/Http/Middleware/ResolveTenant.php:37 | `where('slug', …)->first()`: none exactly when no tenant has the slug, and otherwise the first tenant with that slug |
| ResolveTenant.Handle | billing-backend/app/Http/Middleware/ResolveTenant.php:16-42 | the holder ends up with the tenant found for the resolved slug, or none, and a found tenant has that slug |
| Http.OriginShape | billing-ui/src/api/http.ts:6 | the origin is the configured URL, or the default, with every trailing `/` removed and nothing else changed |
| Http.NotAbsolute | billing-ui/src/api/http.ts:71 | a URL whose second character is not `t` in either case is not absolute |
| Http.RewriteUrl | billing-ui/src/api/http.ts:69-78 | an absolute `http://` or `https://` URL, in any case, is left unchanged. Every other URL becomes one starting with `/api/` |
| Http.RewriteKeepsApiPath | billing-ui/src/api/http.ts:75 | a URL already of the form `/api/…` is sent unchanged, because only one segment is dropped |
| Http.RewriteIdempotent | billing-ui/src/api/http.ts:69-78 | rewriting twice is rewriting once |
| Http.RewriteApiPath | billing-ui/src/api/http.ts:73-77 | a relative path starting with an `api` segment and a `/` becomes `/api/` followed by what comes after that `/` |
| Http.RewriteOtherPath | billing-ui/src/api/http.ts:73-77 | a relative path without a leading `api` segment is prefixed with `/api` |
| Http.ApiSegmentAnyCase | billing-ui/src/api/http.ts:75 | `/API/…`, in any letter case, starts with the `api` segment |
| Http.RewriteDropsApiAnyCase | billing-ui/src/api/http.ts:73-77 | `/<api in any case>/rest` becomes `/api/rest` |
| Http.RewriteBare | billing-ui/src/api/http.ts:73-77 | `invoices` becomes `/api/invoices` |
| Http.RewriteSlash | billing-ui/src/api/http.ts:73-77 | `/invoices` becomes `/api/invoices` |
| Http.RewriteApiOnly | billing-ui/src/api/http.ts:75-77 | `/api` becomes `/api/` |
| Http.RewriteApix | billing-ui/src/api/http.ts:75-77 | `/apix` is not an `api` segment and becomes `/api/apix` |
| Http.RewriteApiApi | billing-ui/src/api/http.ts:75-77 | `/api/api/x` stays `/api/api/x` |
| Http.ApiClient.constructor | billing-ui/src/api/http.ts:6-18 | the client starts with the computed origin, no token and no default header, so the default header follows the token |
| Http.ApiClient.SetAuthToken | billing-ui/src/api/http.ts:21-25 | the token is always remembered. A non-empty token sets the default header to `Bearer <token>`; an absent or empty token removes the header. Afterwards the default header follows the token |
| Http.ApiClient.GetToken | billing-ui/src/api/http.ts:26 | returns the remembered token |
| Http.ApiClient.RestoreToken | billing-ui/src/api/http.ts:44-57 | a non-empty stored token is installed (as `setAuthToken` does) and returned. Otherwise nothing changes and nothing is returned. A default header that followed the token still does |
| Http.ApiClient.InterceptRequest | billing-ui/src/api/http.ts:61-80 | the URL is always rewritten by `RewriteUrl`. A non-empty `Authorization` header is never overwritten. Otherwise the remembered token, or else the restored one, is added as `Bearer <token>` when there is one. The token state changes only when a stored token is restored, and a default header that followed the token still does |
| Shell.TitleFromPath | billing-ui/src/layout/shell.tsx:227-231 | `''` and `'/'` give `Dashboard`; any other path gives a title with no `/` |
| Shell.TitleIsFirstSegment | billing-ui/src/layout/shell.tsx:229-230 | away from the root, the title is the text after the leading slashes up to the next `/`, with only its first character upper-cased |
| Shell.TitleOfSlashes | billing-ui/src/layout/shell.tsx:229-230 | a path of two or more slashes only gives the empty title |
| Shell.TitleOfSegment | billing-ui/src/layout/shell.tsx:229-230 | `/seg/rest` (such as `/invoices/12`) is titled by `seg` with its first letter upper-cased |
| Shell.SplitWs | billing-ui/src/layout/shell.tsx:236 | `split(/\s+/)` always gives at least one piece |
| Shell.SplitWsNoSpace | billing-ui/src/layout/shell.tsx:236 | no piece of the split holds white space |
| Shell.SplitWsSingle | billing-ui/src/layout/shell.tsx:236-237 | the split has one piece exactly when the text has no white space |
| Shell.SplitWsWithoutSpace | billing-ui/src/layout/shell.tsx:236-237 | text without white space is its own only piece |
| Shell.SplitWsFirst | billing-ui/src/layout/shell.tsx:236-238 | text starting with a non-space character has a first piece starting with that character |
| Shell.SplitWsLaterPiecesNonEmpty | billing-ui/src/layout/shell.tsx:236-238 | when the text does not end in white space, every piece after the first is non-empty |
| Shell.SplitWsLast | billing-ui/src/layout/shell.tsx:236-238 | for text not ending in white space, the last piece is everything after its last white-space character |
| Shell.GetInitials | billing-ui/src/layout/shell.tsx:232-239 | the initials are one or two characters: `U` for the empty string, and the upper-cased first character when `@` occurs after the first position |
| Shell.WordInitials | billing-ui/src/layout/shell.tsx:236-238 | the initials of trimmed text are one or two characters |
| Shell.WordInitialsCases | billing-ui/src/layout/shell.tsx:236-238 | trimmed text gives `U` when empty, its upper-cased first character when it is one word, and otherwise the upper-cased first character and the one after the last white space |
| Shell.OneWordInitials | billing-ui/src/layout/shell.tsx:237 | one word gives its upper-cased first character |
| Shell.SeveralWordsInitials | billing-ui/src/layout/shell.tsx:238 | several words give the upper-cased first letters of the first and the last word |
| Shell.InitialsOfText | billing-ui/src/layout/shell.tsx:233-238 | without an `@` after the first position, the initials come from the trimmed text as `WordInitialsCases` states |
| Shell.InitialsOfBlank | billing-ui/src/layout/shell.tsx:233-237 | empty or all-white-space input gives `U` |
| Shell.InitialsLeadingAt | billing-ui/src/layout/shell.tsx:234-237 | an `@` at index 0 does not select the e-mail rule: a one-word `@…` input gives `@` |
| Shell.DisplayEmail | billing-ui/src/layout/shell.tsx:51 | the e-mail when present, even when empty, else `Not signed in` |
| Shell.DisplayNameFallback | billing-ui/src/layout/shell.tsx:52 | the name when present, even when empty. Otherwise the e-mail text before its first `@`, which holds no `@`, when the e-mail is non-empty. Otherwise `User` |
| Shell.InitialsSource | billing-ui/src/layout/shell.tsx:53 | `name \|\| email \|\| 'U'`: the first non-empty of name and e-mail, else `U`. It is never empty |
| Shell.EmptyNameDisplayedButSkipped | billing-ui/src/layout/shell.tsx:52-53 | an empty name is displayed as the empty name, but the initials come from the e-mail |
| Shell.AtMostOneActive | billing-ui/src/layout/shell.tsx:88-89 | at most one navigation entry is active for any path, and one is exactly when the path equals an entry's `href` |
| Shell.SubPageActivatesNothing | billing-ui/src/layout/shell.tsx:89 | a sub-page such as `/invoices/12` activates no entry |
| Dashboard.FromIndex | billing-ui/components/DashboardCharts.tsx:140 | every month index names a calendar month with month 0-11 |
| Dashboard.MonthIndexInjective | billing-ui/components/DashboardCharts.tsx:140 | calendar months with the same index are equal |
| Dashboard.MonthsBefore | billing-ui/components/DashboardCharts.tsx:140 | `new Date(y, m - i, 1)` is the month exactly `i` months earlier, a negative month rolling back into earlier years |
| Dashboard.MonthsBeforeSteps | billing-ui/components/DashboardCharts.tsx:139-142 | going back 0 months stays put, and going back one month less gives the next month, across December |
| Dashboard.Pad2 | billing-ui/components/DashboardCharts.tsx:145 | `padStart(2, '0')` of a number below 100 has two characters |
| Dashboard.Pad2Digits | billing-ui/components/DashboardCharts.tsx:145 | the two characters are digits that read back as the number |
| Dashboard.KeyParts | billing-ui/components/DashboardCharts.tsx:145 | a key is the year's decimal text, `-`, and the two-digit month |
| Dashboard.KeyRoundTrip | billing-ui/components/DashboardCharts.tsx:145 | a key reads back as its year and as its month number 1-12 |
| Dashboard.KeyInjective | billing-ui/components/DashboardCharts.tsx:145 | distinct months have distinct keys |
| Dashboard.NaNKeyIsNoMonth | billing-ui/components/DashboardCharts.tsx:145 | no month has the key `NaN-NaN` of an invalid date |
| Dashboard.WindowMonths | billing-ui/components/DashboardCharts.tsx:137-144 | the window has `n` months, and none when `n` ≤ 0 |
| Dashboard.GetLastNMonths | billing-ui/components/DashboardCharts.tsx:137-144 | the loop pushes exactly the buckets of the window, oldest first |
| Dashboard.WindowConsecutive | billing-ui/components/DashboardCharts.tsx:139-142 | the window ends at the base month and runs through consecutive months across year boundaries |
| Dashboard.WindowKeysDistinct | billing-ui/components/DashboardCharts.tsx:137-145 | the buckets of a window have pairwise distinct keys |
| Dashboard.NaNKeyOutsideWindow | billing-ui/components/DashboardCharts.tsx:145 | the key of an invalid date is in no window |
| Dashboard.ToNum | billing-ui/components/DashboardCharts.tsx:146 | `toNum` is the number when it is finite and 0 otherwise; undefined, null and false give 0 |
| Dashboard.Round | billing-ui/components/DashboardCharts.tsx:131-133 | `Math.round` gives the integer within half a unit, halves rounded up |
| Dashboard.RoundMonotone | billing-ui/components/DashboardCharts.tsx:131-132 | rounding keeps order |
| Dashboard.PaymentAmount | billing-ui/components/DashboardCharts.tsx:127 | `amount ?? amount_paid ?? 0` |
| Dashboard.PaymentDate | billing-ui/components/DashboardCharts.tsx:125 | `date \|\| paid_at \|\| created_at \|\| ''`: the first non-empty date, else the empty string |
| Dashboard.Slice10 | billing-ui/components/DashboardCharts.tsx:126 | `slice(0, 10)` is the prefix of length at most 10 |
| Dashboard.PaidAtMostIssued | billing-ui/components/DashboardCharts.tsx:121-122 | with non-negative totals, a month's paid sum lies between 0 and its issued sum |
| Dashboard.RoundedPaidAtMostIssued | billing-ui/components/DashboardCharts.tsx:121-132 | with non-negative totals, 0 ≤ rounded paid ≤ rounded issued |
| Dashboard.InvoiceOfOtherMonth | billing-ui/components/DashboardCharts.tsx:119 | an invoice of another month adds nothing to a month's sums |
| Dashboard.InvoiceOfTheMonth | billing-ui/components/DashboardCharts.tsx:119-122 | an invoice of the month adds its total to the issued sum, and to the paid sum when its status is `paid` in any case |
| Dashboard.PaymentOfOtherMonth | billing-ui/components/DashboardCharts.tsx:126 | a payment of another month adds nothing to a month's sum |
| Dashboard.PaymentOfTheMonth | billing-ui/components/DashboardCharts.tsx:126-127 | a payment adds its amount to its own month's sum |
| Dashboard.ZeroAccumulators | billing-ui/components/DashboardCharts.tsx:117 | one zeroed accumulator per bucket key and no other key |
| Dashboard.AddInvoice | billing-ui/components/DashboardCharts.tsx:120-122 | adding an invoice leaves the payments amount alone |
| Dashboard.InvoiceStepSkipped | billing-ui/components/DashboardCharts.tsx:119 | skipping an invoice whose key has no accumulator keeps every accumulator equal to the sums so far |
| Dashboard.InvoiceStepAdded | billing-ui/components/DashboardCharts.tsx:119-122 | adding an invoice to its accumulator keeps every accumulator equal to the sums so far |
| Dashboard.AddOneInvoice | billing-ui/components/DashboardCharts.tsx:119-122 | one pass of the invoice loop extends the accumulated sums by that invoice |
| Dashboard.AddInvoices | billing-ui/components/DashboardCharts.tsx:118-123 | after the invoice loop, each accumulator holds its month's paid and issued sums, with the same keys and the payments untouched |
| Dashboard.PaymentStepSkipped | billing-ui/components/DashboardCharts.tsx:126 | skipping a payment whose key has no accumulator keeps every accumulator equal to the sums so far |
| Dashboard.PaymentStepAdded | billing-ui/components/DashboardCharts.tsx:126-127 | adding a payment to its accumulator keeps every accumulator equal to the sums so far |
| Dashboard.AddOnePayment | billing-ui/components/DashboardCharts.tsx:126-127 | one pass of the payment loop extends the accumulated sums by that payment |
| Dashboard.AddPayments | billing-ui/components/DashboardCharts.tsx:124-128 | after the payment loop, each accumulator holds its month's payment sum, with the same keys and the invoice amounts untouched |
| Dashboard.MakeSeries | billing-ui/components/DashboardCharts.tsx:114-135 | the four series have one entry per window bucket. Entry `j` is bucket `j`'s month label and the rounded paid, issued and payment sums of its month |
| Dashboard.HexDigitValue | billing-ui/components/DashboardCharts.tsx:147 | the result is -1 exactly for a character that is not a hexadecimal digit. A decimal digit is worth its value, and `a`-`f` or `A`-`F` are worth 10-15 regardless of case |
| Dashboard.HexPrefix | billing-ui/components/DashboardCharts.tsx:147 | the longest run of hexadecimal digits at the start of the text |
| Dashboard.ParseHexPair | billing-ui/components/DashboardCharts.tsx:147 | `parseInt` of two hexadecimal digits in base 16 is 16 × first + second, in 0..255 |
| Dashboard.RemoveFirstHash | billing-ui/components/DashboardCharts.tsx:147 | `replace('#', '')` drops a leading `#` and leaves text without `#` unchanged |
| Dashboard.Slice | billing-ui/components/DashboardCharts.tsx:147 | `slice(i, j)` is the sub-sequence when in range, runs to the end when only `j` is past it, and is empty when `i` is past it |
| Dashboard.ToRgbaShort | billing-ui/components/DashboardCharts.tsx:147 | `#rgb` reads each digit doubled |
| Dashboard.ToRgbaLong | billing-ui/components/DashboardCharts.tsx:147 | `#rrggbb` reads the digits in pairs |
| Dashboard.RgbaShortForm | billing-ui/components/DashboardCharts.tsx:147 | for valid `#rgb` each component is its digit read twice (17 × digit), in 0..255, and alpha is passed through |
| Dashboard.RgbaLongForm | billing-ui/components/DashboardCharts.tsx:147 | for valid `#rrggbb` each component is its pair read in base 16, in 0..255, and alpha is passed through |
| Dashboard.Clamp | billing-ui/components/DashboardCharts.tsx:150 | the result lies in [min, max] when min ≤ max, equals `v` inside the range, is `min` below it and `max` above it, and is `min` when min > max |
| Login.EmailValidMatchesPattern | billing-ui/app/login.tsx:15 | the character-level rule holds exactly when `/^[^@\s]+@[^@\s]+\.[^@\s]+$/` matches. The rule is: exactly one `@` with a non-empty part before it, a `.` inside the domain that is neither its first nor its last character, and no white space |
| Login.ValidSplit | billing-ui/app/login.tsx:15 | an address that satisfies the rule splits into the pattern's three runs |
| Login.PatternSplit | billing-ui/app/login.tsx:15 | a match of the pattern satisfies the rule |
| Login.ValidHasOneAt | billing-ui/app/login.tsx:15 | a valid address has exactly one `@`, and not in first position |
| Login.EmptyEmailNotFlagged | billing-ui/app/login.tsx:15 | an empty e-mail is never flagged invalid |
| Login.CanSubmitIff | billing-ui/app/login.tsx:16 | the button is enabled exactly for a non-empty matching e-mail, a non-empty password and no submit under way |
| Login.ErrorMessage | billing-ui/app/login.tsx:25 | the server's message when it is non-empty, else `Invalid email or password.`. It is never empty |
| Login.LoginForm.constructor | billing-ui/app/login.tsx:9-13 | the form starts empty, not loading, with no error |
| Login.LoginForm.Start | billing-ui/app/login.tsx:19-20 | nothing happens unless the button rule holds. Otherwise `loading` is set and `err` cleared |
| Login.LoginForm.Settle | billing-ui/app/login.tsx:22-26 | `loading` ends false. Success navigates home; failure sets the error message |
| Login.LoginForm.Submit | billing-ui/app/login.tsx:18-27 | a whole submit does nothing when the button rule fails. Otherwise it ends not loading, and either navigated home with no error or showing the error message. The typed fields are never changed |

## Left out

- The GST summary screen and its report logic are not part of this model.
- The controllers for invoices, payments, clients and authentication are not part of this model. Nor are the routes, the service provider, the migrations (beyond the NOT NULL `tax_percentage` column under Findings), the models' own files, or the `auth.ts` login call and user storage.
- Eloquent persistence is not modelled: `findOrFail`, `create`, `where`, `destroy` and `index`.
  - The item row is a class; the tenants table is a sequence; existing invoice ids are a set parameter.
  - A missing item (`findOrFail` raising 404) is not modelled.
- Laravel's validation engine is not modelled. Its type checks (`integer`, `numeric`, `string`) are replaced by Dafny types, and its error response by the set of failed fields.
- The database's decimal(10,2) rounding of stored amounts is not modelled, and neither are PHP and JavaScript binary floating point. All money is exact `real`.
- InvoiceItems.InvoiceItem.Update: an explicit null tax percentage is treated as absent, following the corrected reading under Findings. The as-written update is `InvoiceItems.UpdateAsWritten`.
- InvoiceItems.Store: Laravel's global `TrimStrings` and `ConvertEmptyStringsToNull` middleware are not modelled. They run before validation, so the application checks `max:255` on the trimmed description and stores it trimmed. The model checks and stores the text as sent. A description that fits in 255 characters only once trimmed (`x` followed by 300 spaces, say) is accepted by the application and refused by the model. A blank description is refused by both.
- InvoiceItems.InvoiceItem.Update: for the same reason, a sent description is checked against `max:255` and written back as sent rather than trimmed. A description that fits only once trimmed is refused by the model, while the application accepts it and stores it trimmed.
- The `Log::info` and `Log::error` calls of `store` have no effect on the result and are not modelled. Neither is the re-thrown exception, beyond the validation errors.
- ResolveTenant.Handle: the host is taken as the framework hands it over, and Symfony's host normalisation is not modelled. PHP's byte-wise `preg_replace` and `trim` are modelled on characters. The `Tenant` model file is not part of this model.
- `formatINR`, `formatINRShort`, the chart, the tooltip and all styles are not modelled, because they rely on Intl, `toFixed` and pixel floats.
- Dashboard.MakeSeries: the labels are month numbers 0-11, not the `en-IN` short month names from `toLocaleString`.
- Dashboard.MakeSeries: date parsing is a runtime parameter.
  - `new Date(string)`, including its time-zone shift, and `Number(string)` are functions in the `Runtime` parameter.
  - `new Date()` is the `now` parameter.
- Dashboard.MakeSeries: the invoice and payment lists cannot be null (`?? []` is not modelled).
- Dashboard.MakeSeries: a missing `invoice_date` (where `ymKey(undefined)` throws) and a non-string `status` (where `toLowerCase` throws) are not modelled.
- Dashboard.GetLastNMonths: `new Date(y, m, 1)` maps years 0-99 to 1900-1999. A window reaching those years is not modelled, and the year is taken literally.
- Dashboard.ToRgbaShort: the `rgba(...)` string is not rendered. The model returns its components, with `None` for NaN.
- Session storage, secure storage and the 401 auto-logout are not modelled.
  - `saveToken` and `clearToken` are, for the in-memory state, `SetAuthToken` of the token and of nothing.
  - The value a storage read returns is the `stored` parameter.
- Http.ApiClient.RestoreToken: a failed web storage read returns `tokenMem` in the source, and the model returns none. Its only caller here acts the same way on both, because it calls only when `tokenMem` is absent or empty.
- Http.ApiClient.InterceptRequest: only the `Authorization` header and the URL of a request are modelled. A non-string header value and the merging of other headers are not.
- The server call behind the login form, the stored token and `router.replace` are not modelled. The call's outcome is a parameter, and navigation is the `navigatedHome` flag.
- Shell.TitleFromPath: the first letter is upper-cased on ASCII only. JavaScript's `toUpperCase` also maps other letters, some to two characters (`ß` to `SS`).
- Shell.TitleIsFirstSegment: the same ASCII-only upper-casing as `Shell.TitleFromPath`.
- Shell.TitleOfSegment: the same ASCII-only upper-casing as `Shell.TitleFromPath`.
- Shell.GetInitials: letters are upper-cased on ASCII only, and strings are sequences of characters rather than UTF-16 code units. JavaScript's full Unicode case mapping and surrogate pairs are not modelled.
- The shell's `useState` UI state, the user-menu modal and the logout handler are not modelled.

## Findings

| source | as written | input that shows it | evidently intended | confidence | as-written member | corrected member |
|---|---|---|---|---|---|---|
| billing-backend/app/Http/Controllers/InvoiceItemController.php:65-79 | `tax_percentage` is `sometimes\|nullable`. `isset` treats an explicit null as not supplied, so nothing is recomputed, yet `update($validated)` writes the null back into a column that billing-backend/database/migrations/2025_07_22_103819_add_gst_to_invoice_items_table.php:15 declares NOT NULL | item with quantity 1, unit price 100, 18 % tax (tax 18, total 118), updated with only `{"tax_percentage": null}`. A strict database (SQLite, PostgreSQL, MySQL in strict mode) refuses the write, so a request that passed validation fails with a server error. MySQL outside strict mode stores 0 while the tax stays 18 | an explicit null is treated like an absent field, so the update succeeds and the derived amounts always agree with the stored inputs | medium, not executed | InvoiceItems.AsWrittenWithNullTax | InvoiceItems.UpdatePreservesInvariant |
