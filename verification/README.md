# Investment dashboard front end: formatters, API errors, forms, product panel, carousel

This project models the deterministic core of a mocked investment-dashboard web
front end (React and TypeScript) and proves properties of that model.

- **Formatters.** The CPF and phone masks, truncation with an ellipsis, signed
  profit/loss and percentage strings, the key-to-label tables that fall back to
  the key, and the three colour classifications.
- **API errors.** The `ApiError` record and its six class predicates. The
  user-facing message, chosen by the first class that matches. How an error is
  built from a failed response, with fallbacks for code and message, and how
  `apiFetch` maps whatever was thrown. The `retryAsync` loop with capped
  exponential backoff.
- **Register dialog.** The regex-based `formatCPF` and `formatPhone` masks,
  `validateCPF`, the ten-step validation chain (the first failure wins), field
  edits that clear the error, and the submit that calls `register` and resets the
  form on success.
- **Contact form.** Per-field errors, clearing an error as its field is edited,
  and a submit that validates, sends and resets.
- **Login dialog.** The two-step chain: every field filled, then an e-mail
  address or the literal `admin`. The submit that calls `login`.
- **Product comparison panel.** The type filter, the descending stable sort on a
  copy, the de-duplicated type buttons with "all" first, the nine-card cap, and
  the labels and star count of each card.
- **Testimonial carousel.** The current index and the autoplay flag, driven by
  the arrows, the dots, the autoplay interval and hovering.

Modules:

- `Wrappers`: `Option` and `Result`.
- `Text`: JavaScript string behaviour the source relies on.
  - `\D` stripping, through `Digits`.
  - `trim`, with JavaScript's whitespace set.
  - `split`, and `slice` with a negative end.
  - `toLowerCase`.
  - The shared e-mail pattern `^[^\s@]+@[^\s@]+\.[^\s@]+$`, as `ValidEmail`.
- `Checks`: the "first failing check sets the error" chain that the three forms share.
- `Formatters`, `ApiErrors`, `RegisterModal`, `ContactForm`, `LoginModal`,
  `ProductComparison`, `TestimonialCarousel`: one module per source file.

What is pure in the source is modelled as functions. The state the components
update step by step is modelled as classes whose methods state the whole new
state:

- the register form's `formData`, `error` and `agreedTerms`;
- the contact form's `errors` and `submitStatus`;
- the login dialog's fields;
- the carousel's `currentIndex` and `isAutoPlay`.

`retryAsync` is a method with a loop.

Where the source waits or calls out, the model takes what came back as a parameter:

- The awaited `register` or `login` call is an `Outcome` parameter.
- The function that `retryAsync` retries is the sequence of its outcomes, `fn(k)`.
- Each sleep is appended to a list of delays.
- Each timer firing is a method call: `Tick`, `FinishSending`, `ClearStatus`.
- `Intl` currency rendering and `Number.prototype.toFixed` are function parameters.

## Model

| member | source | states |
|---|---|---|
| Checks.FirstFailure | client/src/components/RegisterModal.tsx:95-143 | no message exactly when every check passes; otherwise the message of a failing check before which all checks pass |
| Checks.FirstFailureAt | client/src/components/LoginModal.tsx:32-41 | when check i is the first to fail, the chain reports check i's own message |
| Text.Digits | client/src/lib/formatters.ts:39 | `replace(/\D/g, '')` keeps only ASCII digits, leaves an all-digit text as it is, and is never longer than its input |
| Text.DigitsAppend | client/src/lib/formatters.ts:39 | stripping non-digits distributes over concatenation |
| Text.SliceTo | client/src/lib/formatters.ts:116 | `slice(0, end)` is a prefix: the whole text past its length, `end` characters for `0 <= end`, and the text less `-end` characters at the end for a negative end |
| Text.Trim | client/src/components/ContactForm.tsx:40 | `trim()` as leading then trailing JavaScript whitespace removal; its meaning is stated by TrimSlice, TrimEmptyIff and TrimIdempotent |
| Text.TrimStartSpec | client/src/components/ContactForm.tsx:40 | dropping leading whitespace leaves a suffix whose dropped part is all whitespace and whose first character is not |
| Text.TrimEndSpec | client/src/components/ContactForm.tsx:40 | dropping trailing whitespace leaves a prefix whose dropped part is all whitespace and whose last character is not |
| Text.TrimSlice | client/src/components/ContactForm.tsx:40-42 | `trim()` yields a contiguous piece of the text, with whitespace only around it and none at either of its ends |
| Text.TrimEmptyIff | client/src/components/ContactForm.tsx:40 | the trimmed text is empty exactly when the text is all JavaScript whitespace |
| Text.TrimIdempotent | client/src/components/ContactForm.tsx:40-58 | trimming twice is trimming once |
| Text.Split | client/src/components/RegisterModal.tsx:100 | `split(" ")` gives one more part than there are separators, and no part holds a separator |
| Text.SplitJoin | client/src/components/RegisterModal.tsx:100 | joining the parts of `split` with the separator gives back the text |
| Text.ValidEmail | client/src/components/ContactForm.tsx:31-32 | the pattern `^[^\s@]+@[^\s@]+\.[^\s@]+$`: a non-empty local part, '@', then a domain with a '.' and non-empty text on both sides, no part holding whitespace or '@' (also at LoginModal.tsx:38 and RegisterModal.tsx:110) |
| Text.ValidEmailShape | client/src/components/ContactForm.tsx:30-33 | any text the e-mail pattern accepts is non-empty, holds exactly one '@' and no whitespace, and is unchanged by trimming |
| Text.ToLower | client/src/lib/formatters.ts:194 | `toLowerCase` keeps the length and lowers character by character |
| Text.ToLowerIdempotent | client/src/lib/formatters.ts:194 | lowering twice is lowering once |
| Text.DecimalRoundTrip | client/src/lib/apiError.ts:113 | the decimal text of a status reads back as that status |
| Formatters.Cpf | client/src/lib/formatters.ts:38-42 | fewer than 11 digits: the input unchanged; otherwise exactly the `ddd.ddd.ddd-dd` shape (14 characters) |
| Formatters.CpfDigits | client/src/lib/formatters.ts:39-41 | stripping the non-digits from the mask gives the input's first 11 digits back (all of them below 11) |
| Formatters.CpfIdempotent | client/src/lib/formatters.ts:38-42 | masking an already masked CPF changes nothing |
| Formatters.Phone | client/src/lib/formatters.ts:48-55 | fewer than 10 digits: the input unchanged; exactly 10: `(dd) dddd-dddd`; 11 or more: `(dd) ddddd-dddd` |
| Formatters.PhoneDigits | client/src/lib/formatters.ts:49-54 | stripping the non-digits from the mask gives the input's first 11 digits back |
| Formatters.PhoneIdempotent | client/src/lib/formatters.ts:48-55 | masking an already masked phone changes nothing |
| Formatters.Truncate | client/src/lib/formatters.ts:114-117 | a text that fits is returned as is; otherwise its first maxLength characters followed by "...", of length maxLength + 3 (for a negative maxLength, the slice that `slice` gives) |
| Formatters.ProfitLoss | client/src/lib/formatters.ts:96-99 | '+' exactly when the value is at least 0, '-' exactly when it is negative, followed by the currency text of the absolute value |
| Formatters.ProfitLossMirror | client/src/lib/formatters.ts:96-99 | for v > 0, v and -v render alike except for the sign character |
| Formatters.Percentage | client/src/lib/formatters.ts:30-32 | exactly the fixed-point text of the value followed by '%' |
| Formatters.ProfitLossPercentage | client/src/lib/formatters.ts:105-108 | '+' before the percentage exactly for values at least 0, nothing added for negatives, and always ends in '%' |
| Formatters.InvestmentType | client/src/lib/formatters.ts:123-133 | the table's label for a known type, the key itself for any other |
| Formatters.InvestmentTypeShort | client/src/lib/formatters.ts:139-149 | the short label for a known type, the key itself for any other |
| Formatters.AccountType | client/src/lib/formatters.ts:155-162 | the label for a known account type, the key itself for any other |
| Formatters.Liquidity | client/src/lib/formatters.ts:168-176 | the label for a known liquidity, the key itself for any other |
| Formatters.ProfitLossColor | client/src/lib/formatters.ts:183-187 | green iff value > 0, red iff value < 0, gray iff value = 0 |
| Formatters.RiskLevelColor | client/src/lib/formatters.ts:193-204 | each of the three colours iff the lowered level is its keyword; gray iff the lowered level is none of them |
| Formatters.RiskLevelColorIgnoresCase | client/src/lib/formatters.ts:194 | the colour does not depend on letter case |
| Formatters.AlertTypeColor | client/src/lib/formatters.ts:210-221 | blue iff "opportunity", yellow iff "warning", gray for "info" and everything else |
| ApiErrors.Kind | client/src/lib/apiError.ts:20-57 | the class chosen is the first one, in the order auth, permission, validation, network, timeout, server, whose predicate holds; Unclassified iff none holds |
| ApiErrors.UserMessage | client/src/lib/apiError.ts:62-78 | the fixed message of the first matching class; for an unclassified error its own message, or the unknown-error text when that is empty; never empty |
| ApiErrors.AuthWinsOverServer | client/src/lib/apiError.ts:62-65 | status 500 with code UNAUTHORIZED yields the session-expired message |
| ApiErrors.ClassifiedMessageIgnoresText | client/src/lib/apiError.ts:62-75 | an error's class, and so a classified error's message, does not depend on its own message text |
| ApiErrors.MessageOr | client/src/lib/apiError.ts:145 | an Error's own message, the fallback for a thrown non-Error |
| ApiErrors.ErrorFromResponse | client/src/lib/apiError.ts:111-116 | the status is kept; the code is the body's code, else `HTTP_` followed by the status in decimal; the message is the body's, else the status text, else "Erro na requisição" |
| ApiErrors.HandleApiResponse | client/src/lib/apiError.ts:99-117 | an ok response succeeds iff its body parses, with that body, and otherwise rethrows the parse error; a failed one throws the fallback-built error, `{}` standing in for an unparsable body; a `null` body throws a TypeError |
| ApiErrors.AsApiError | client/src/lib/apiError.ts:129-146 | an ApiError is rethrown unchanged; a TypeError becomes (0, NETWORK_ERROR, "Erro de conexão. Verifique sua internet."), a network error; anything else (500, UNKNOWN_ERROR), a server error, with the Error's message or "Erro desconhecido" |
| ApiErrors.ApiFetch | client/src/lib/apiError.ts:122-148 | succeeds iff the fetch settled with an ok response whose body parses, yielding that body; every failure leaves as the ApiError that the catch makes of what was thrown |
| ApiErrors.FailedResponseKeepsStatus | client/src/lib/apiError.ts:111-116 | a failed response with a non-null body surfaces as exactly the fallback-built error: its own status, the body's code else `HTTP_<status>`, the body's message else the status text else "Erro na requisição", an unparsable body counting as `{}` |
| ApiErrors.OkUnparsableIsUnknownError | client/src/lib/apiError.ts:99-146 | an ok response whose body does not parse surfaces as (500, UNKNOWN_ERROR) with the parser's message |
| ApiErrors.NullBodyReadsAsNetworkError | client/src/lib/apiError.ts:104-116 | a failed response whose body is `null` surfaces as (0, NETWORK_ERROR) with the connection message, whatever its status |
| ApiErrors.Retryable | client/src/lib/apiError.ts:172 | a failure is retried unless it is an ApiError that is a validation or an authentication error |
| ApiErrors.RetryAsync | client/src/lib/apiError.ts:153-193 | at most maxAttempts calls, at least one when maxAttempts >= 1; every call but the last failed retryably; stopping before the last attempt means the last call succeeded or failed non-retryably; the result is how the last call settled; the sleeps are the backoff schedule, one fewer than the calls |
| ApiErrors.Backoff | client/src/lib/apiError.ts:163-188 | the k-th sleep is the initial delay, and each later one is min(previous * multiplier, maxDelayMs) |
| ApiErrors.BackoffCapped | client/src/lib/apiError.ts:185-188 | no sleep exceeds maxDelayMs when the initial delay does not |
| ApiErrors.LaterSleepsCapped | client/src/lib/apiError.ts:185-188 | for any options, every sleep after the first is at most maxDelayMs |
| ApiErrors.BackoffMonotone | client/src/lib/apiError.ts:185-188 | when the initial delay is between 0 and maxDelayMs and the multiplier is at least 1, the sleeps never shrink and stay within maxDelayMs |
| ApiErrors.DefaultSchedule | client/src/lib/apiError.ts:155-160 | the default options sleep 1000 ms and then 2000 ms |
| RegisterModal.FirstDigitRun | client/src/components/RegisterModal.tsx:46 | a non-global replace finds the leftmost run of k digits: a run starts there and none starts earlier |
| RegisterModal.InsertDot | client/src/components/RegisterModal.tsx:46-47 | `/(\d{3})(\d)/ -> "$1.$2"` adds at most one character and keeps the digits |
| RegisterModal.DashBeforeCheckDigits | client/src/components/RegisterModal.tsx:48 | `/(\d{3})(\d{1,2})$/ -> "$1-$2"` adds at most one character and keeps the digits |
| RegisterModal.FormatCPF | client/src/components/RegisterModal.tsx:43-50 | at most 14 characters, whose digits are a prefix of the input's digits |
| RegisterModal.ParenthesiseAreaCode | client/src/components/RegisterModal.tsx:55 | `/(\d{2})(\d)/ -> "($1) $2"` adds at most three characters and keeps the digits |
| RegisterModal.DashAfterFive | client/src/components/RegisterModal.tsx:56 | `/(\d{5})(\d)/ -> "$1-$2"` adds at most one character and keeps the digits |
| RegisterModal.FormatPhone | client/src/components/RegisterModal.tsx:52-58 | at most 15 characters, whose digits are a prefix of the input's digits |
| RegisterModal.FormatCPFElevenDigits | client/src/components/RegisterModal.tsx:43-50 | an input with exactly 11 digits becomes `ddd.ddd.ddd-dd`, the same text the shared CPF formatter gives |
| RegisterModal.FormatPhoneElevenDigits | client/src/components/RegisterModal.tsx:52-58 | an input with exactly 11 digits becomes `(dd) ddddd-dddd`, the same text the shared phone formatter gives |
| RegisterModal.FormatCPFKeepsDigits | client/src/components/RegisterModal.tsx:43-50 | up to 11 digits, the mask strips back to exactly the digits typed |
| RegisterModal.FormatPhoneKeepsDigits | client/src/components/RegisterModal.tsx:52-58 | up to 11 digits, the mask strips back to exactly the digits typed |
| RegisterModal.FormatCPFIdempotent | client/src/components/RegisterModal.tsx:60-67 | re-masking the masked field (each keystroke does) changes nothing, up to 11 digits |
| RegisterModal.FormatCPFTwelveDigits | client/src/components/RegisterModal.tsx:43-50 | a twelfth digit is masked as `ddd.ddd.dddd-d`: four digits before the dash, the last digit cut off |
| RegisterModal.FormatCPFTwelveDigitsNotStable | client/src/components/RegisterModal.tsx:60-67 | with twelve digits typed (the field has no length limit), re-masking the masked field changes it |
| RegisterModal.FormatPhoneIdempotent | client/src/components/RegisterModal.tsx:69-76 | re-masking the masked field changes nothing, up to 11 digits |
| RegisterModal.FormatPhoneText | client/src/components/RegisterModal.tsx:52-58 | the phone field only ever holds digits, parentheses, spaces and dashes |
| RegisterModal.ValidateCPF | client/src/components/RegisterModal.tsx:78-87 | true iff exactly 11 digits remain after stripping and they are not all the same digit (no check-digit test) |
| RegisterModal.ValidateFormattedCPF | client/src/components/RegisterModal.tsx:60-87 | masking does not change whether a CPF (up to 11 digits) is accepted |
| RegisterModal.FullNameHasSpace | client/src/components/RegisterModal.tsx:100 | the trimmed name splits into at least two parts exactly when it holds a space |
| RegisterModal.LineEnd | client/src/components/RegisterModal.tsx:130 | the end of the line starting at p: no line terminator before it, and one at it unless it is the end of the text |
| RegisterModal.PasswordClasses | client/src/components/RegisterModal.tsx:130 | the unanchored lookaheads `(?=.*[a-z])(?=.*[A-Z])(?=.*\d)`: at some position, the rest of that line holds an ASCII lowercase letter, an uppercase letter and a digit |
| RegisterModal.PasswordClassesSingleLine | client/src/components/RegisterModal.tsx:130 | on one line, the lookahead pattern holds iff the password has an ASCII lowercase letter, an uppercase letter and a digit |
| RegisterModal.NoLowerFailsPassword | client/src/components/RegisterModal.tsx:130 | a password without an ASCII lowercase letter fails the pattern |
| RegisterModal.PhoneFailsPassword | client/src/components/RegisterModal.tsx:130 | no text the phone mask produces passes the password pattern |
| RegisterModal.SetField | client/src/components/RegisterModal.tsx:34-41 | an edit replaces exactly the named field and keeps every other one |
| RegisterModal.RegisterChecks | client/src/components/RegisterModal.tsx:95-143 | the ten checks of `handleSubmit` in source order, each with the message it shows |
| RegisterModal.Validate | client/src/components/RegisterModal.tsx:95-143 | the message of the first failing check, none when all pass; its order and acceptance are stated by ValidateChecksNameFirst and ValidateAcceptsExactly |
| RegisterModal.ValidateChecksNameFirst | client/src/components/RegisterModal.tsx:95-103 | a blank name reports the missing name first; a one-word name reports the incomplete name |
| RegisterModal.AllPassIffAcceptable | client/src/components/RegisterModal.tsx:95-143 | the ten checks all pass exactly when the form meets every stated rule and the terms are agreed |
| RegisterModal.ValidateAcceptsExactly | client/src/components/RegisterModal.tsx:95-143 | no error exactly when the name has two words, the e-mail matches, the CPF is valid, the phone has at least 10 digits, the password has at least 8 characters and all three classes and equals its confirmation, and the terms are agreed |
| RegisterModal.EmptyFormAsksForName | client/src/components/RegisterModal.tsx:95-98 | the emptied form stops at the first check |
| RegisterModal.AsWrittenSendsPhoneAsPassword | client/src/components/RegisterModal.tsx:146-152 | as written, the call binds the masked phone to `register`'s password parameter: that text always fails the password rule, and for an accepted form it differs from the password typed |
| RegisterModal.RegisterSendsCheckedPassword | client/src/contexts/AuthContext.tsx:66-75 | with the arguments `register` declares, an accepted form sends its own name, e-mail, CPF and password, and that password has passed every password check |
| RegisterModal.Form.constructor | client/src/components/RegisterModal.tsx:21-32 | six empty fields, no error, terms not agreed, both passwords hidden |
| RegisterModal.Form.HandleChange | client/src/components/RegisterModal.tsx:34-41 | sets the named field, clears the error, and changes nothing else |
| RegisterModal.Form.HandleCPFChange | client/src/components/RegisterModal.tsx:60-67 | stores the masked CPF, clears the error, and changes nothing else |
| RegisterModal.Form.HandlePhoneChange | client/src/components/RegisterModal.tsx:69-76 | stores the masked phone, clears the error, and changes nothing else |
| RegisterModal.Form.SetAgreedTerms | client/src/components/RegisterModal.tsx:333-334 | the checkbox sets only the terms flag |
| RegisterModal.Form.TogglePassword | client/src/components/RegisterModal.tsx:280 | flips the visibility of one password field only |
| RegisterModal.Form.HandleSubmit | client/src/components/RegisterModal.tsx:89-168 | a failed check shows its message and sends nothing; otherwise the corrected call is sent (name, e-mail, CPF and the checked password, see Findings); success empties every field, unchecks the terms and closes; a rejection shows the error's message or the generic one and keeps the form |
| ContactForm.NameError | client/src/components/ContactForm.tsx:40-44 | none iff the trimmed name has at least 3 characters; "obrigatório" when blank, the minimum-length message otherwise |
| ContactForm.EmailError | client/src/components/ContactForm.tsx:47-51 | none iff the untrimmed e-mail matches the pattern; "obrigatório" when blank after trimming, "inválido" otherwise |
| ContactForm.MessageError | client/src/components/ContactForm.tsx:54-58 | none iff the trimmed message has at least 10 characters; "obrigatória" when blank, the minimum-length message otherwise |
| ContactForm.NameErrorIgnoresSurroundingSpace | client/src/components/ContactForm.tsx:40-44 | whitespace around the name never decides its error |
| ContactForm.MessageErrorIgnoresSurroundingSpace | client/src/components/ContactForm.tsx:54-58 | whitespace around the message never decides its error |
| ContactForm.EmptyFormRequiresAll | client/src/components/ContactForm.tsx:36-58 | the reset form reports every field as required |
| ContactForm.Form.constructor | client/src/components/ContactForm.tsx:18-27 | empty fields, no errors, idle, not sending |
| ContactForm.Form.ValidateForm | client/src/components/ContactForm.tsx:36-62 | each field's error depends only on that field; the result is true iff there are no errors, that is iff the form is acceptable; nothing else changes |
| ContactForm.Form.HandleChange | client/src/components/ContactForm.tsx:65-81 | updates only the named field and clears only that field's error |
| ContactForm.Form.HandleSubmit | client/src/components/ContactForm.tsx:84-92 | sending starts iff the form is acceptable; the errors are shown either way; a started send is marked as submitting with the status idle |
| ContactForm.Form.FinishSending | client/src/components/ContactForm.tsx:97-113 | after the simulated send: the success status and message, three empty fields, no longer submitting |
| ContactForm.Form.ClearStatus | client/src/components/ContactForm.tsx:105-108 | the later timer resets the status to idle and clears its message |
| LoginModal.Validate | client/src/components/LoginModal.tsx:32-41 | none iff both fields are filled and the e-mail matches the pattern or is exactly "admin"; an empty field reports "preencha todos os campos", a bad e-mail the invalid-e-mail message |
| LoginModal.AdminIsNotAnEmail | client/src/components/LoginModal.tsx:37-38 | "admin" fails the pattern, and only the explicit exception lets it through |
| LoginModal.Dialog.constructor | client/src/components/LoginModal.tsx:21-24 | empty fields, no error, password hidden |
| LoginModal.Dialog.SetEmail | client/src/components/LoginModal.tsx:78-81 | editing the e-mail stores it and clears the error |
| LoginModal.Dialog.SetPassword | client/src/components/LoginModal.tsx:100-103 | editing the password stores it and clears the error |
| LoginModal.Dialog.TogglePassword | client/src/components/LoginModal.tsx:109 | flips the password's visibility only |
| LoginModal.Dialog.HandleSubmit | client/src/components/LoginModal.tsx:26-53 | `login` is called only when both checks pass, with the fields unchanged; success empties both fields and closes; a rejection shows the thrown message or the default text |
| ProductComparison.OfType | client/src/components/ProductComparison.tsx:20 | keeps exactly the products of the type, each as often as in the input |
| ProductComparison.OfTypeKeepsOrder | client/src/components/ProductComparison.tsx:20 | the products kept stay in their original order |
| ProductComparison.Filtered | client/src/components/ProductComparison.tsx:19-20 | "all" keeps every product; any other type keeps exactly the products of that type |
| ProductComparison.Insert | client/src/components/ProductComparison.tsx:22-29 | placing one product adds exactly that product |
| ProductComparison.Sorted | client/src/components/ProductComparison.tsx:22-29 | a permutation of the filtered list with non-increasing return, rating or (for liquidity) constant key |
| ProductComparison.SortedIsStable | client/src/components/ProductComparison.tsx:22-29 | products with equal keys keep their filtered order |
| ProductComparison.SortByLiquidityKeepsOrder | client/src/components/ProductComparison.tsx:22-29 | the comparator returning 0 leaves the filtered order as it is |
| ProductComparison.DistinctMembers | client/src/components/ProductComparison.tsx:31 | a `Set` filled in order keeps each value once, and holds exactly the values not already seen |
| ProductComparison.DistinctOrder | client/src/components/ProductComparison.tsx:31 | the `Set` lists its values in the order of their first occurrence |
| ProductComparison.Types | client/src/components/ProductComparison.tsx:31 | the first button is "all" |
| ProductComparison.TypesSpec | client/src/components/ProductComparison.tsx:31 | after "all", each product type appears exactly once, nothing else appears, and the order is first appearance |
| ProductComparison.Render | client/src/components/ProductComparison.tsx:15-209 | nothing iff the list is empty; the type buttons are `Types`; the cards are the whole sorted list when it has at most 9 products and exactly its first 9 otherwise; "Ver Todos (n)" iff more than 9 products pass the filter |
| ProductComparison.TypeLabel | client/src/components/ProductComparison.tsx:33-43 | the label of a known type, the key itself for any other |
| ProductComparison.LiquidityLabel | client/src/components/ProductComparison.tsx:58-66 | the label of a known liquidity, the key itself for any other |
| ProductComparison.RiskColor | client/src/components/ProductComparison.tsx:45-56 | one class per risk keyword, each iff that keyword; none for anything else |
| ProductComparison.RiskLabel | client/src/components/ProductComparison.tsx:178-182 | "Baixo" iff "baixo", "Médio" iff "médio", "Alto" for every other level |
| ProductComparison.FilledStars | client/src/components/ProductComparison.tsx:136-144 | floor(rating) clamped to 0..5, and the filled stars are exactly the first that many |
| TestimonialCarousel.Next | client/src/components/TestimonialCarousel.tsx:89 | one step forward, wrapping from the last testimonial to the first |
| TestimonialCarousel.Prev | client/src/components/TestimonialCarousel.tsx:82-84 | one step back, wrapping from the first to the last |
| TestimonialCarousel.PrevUndoesNext | client/src/components/TestimonialCarousel.tsx:82-89 | going back undoes going forward |
| TestimonialCarousel.NextUndoesPrev | client/src/components/TestimonialCarousel.tsx:82-89 | going forward undoes going back |
| TestimonialCarousel.AdvanceIsModular | client/src/components/TestimonialCarousel.tsx:74-76 | k interval ticks from i land on (i + k) mod 5 |
| TestimonialCarousel.FullCycle | client/src/components/TestimonialCarousel.tsx:74-76 | five ticks come back to the same testimonial |
| TestimonialCarousel.Carousel.constructor | client/src/components/TestimonialCarousel.tsx:68-69 | starts at the first testimonial with autoplay on |
| TestimonialCarousel.Carousel.Position | client/src/components/TestimonialCarousel.tsx:215-216 | the counter shows index + 1, between 1 and 5 |
| TestimonialCarousel.Carousel.OneDotHighlighted | client/src/components/TestimonialCarousel.tsx:171-176 | exactly one dot is highlighted |
| TestimonialCarousel.Carousel.GoToNext | client/src/components/TestimonialCarousel.tsx:88-91 | the next index, in range, with autoplay off |
| TestimonialCarousel.Carousel.GoToPrevious | client/src/components/TestimonialCarousel.tsx:81-86 | the previous index, in range, with autoplay off |
| TestimonialCarousel.Carousel.GoToSlide | client/src/components/TestimonialCarousel.tsx:93-96 | the given index, with autoplay off |
| TestimonialCarousel.Carousel.Tick | client/src/components/TestimonialCarousel.tsx:71-79 | advances like next only while autoplay is on, and never changes autoplay |
| TestimonialCarousel.Carousel.MouseEnter | client/src/components/TestimonialCarousel.tsx:146-160 | hovering an arrow pauses autoplay and keeps the index |
| TestimonialCarousel.Carousel.MouseLeave | client/src/components/TestimonialCarousel.tsx:146-160 | leaving an arrow resumes autoplay and keeps the index |

## Left out

- The `currency`, `number`, `date`, `dateTime` and `quantity` formatters call `Intl` or `toFixed`, a locale library outside this model. `profitLoss` and `percentage` take their renderings as function parameters.
- The default of 2 for `decimals` in `percentage` and `profitLossPercentage` is not applied by the model: `Percentage` and `ProfitLossPercentage` always take the argument, and a call that omits it corresponds to passing `DefaultDecimals`.
- JavaScript numbers are modelled as mathematical reals (amounts, percentages, delays, multipliers) or integers (`truncate`'s `maxLength`, statuses, ratings): `NaN`, the infinities, IEEE-754 rounding of `delay * backoffMultiplier` and a fractional `maxLength` are not modelled. For example `getProfitLossColor(NaN)` gives gray and `profitLoss(NaN)` the `-` sign in the source, cases the model has no value for.
- Lengths are counted in characters, not in the UTF-16 code units JavaScript counts; the two differ only for characters outside the Basic Multilingual Plane.
- Inherited `Object.prototype` keys in the lookup tables (`investmentType("constructor")` and the like) are not modelled; every table is a finite map.
- Text.ToLower: lowers ASCII and Latin-1 letters only, not the whole Unicode case mapping. It is enough for the three risk keywords and what they compare against.
- ApiErrors.ApiError: the `details` field, the `name` and `stack` properties and `toJSON` are left out; they only carry data for logging.
- ApiErrors.Body: a JSON body's `code` and `message` are given as strings, with "" for an absent or falsy value. A non-string truthy value would be passed on as it is in the source.
- ApiErrors.HandleApiResponse: the TypeError text for reading a property of `null` is the V8 wording; other engines word it differently. Only its kind matters for `apiFetch`.
- ApiErrors.RetryAsync: `maxAttempts` is an integer; a fractional value, which the source would count against `attempt` as a float, is not modelled. Real waiting is a list of delays.
- Network I/O, `fetch`, `register`, `login`, `onClose` and the timers are inputs or method calls.
- `AuthContext.tsx` is not part of this model beyond the parameter list of `register` (AuthContext.tsx:16, 66-75). The same file forwards the login e-mail under the key `cpf` (AuthContext.tsx:53-56); that sits outside the dialogs modelled here.
- RegisterModal.ValidateCPF: checks only the length and the repeated-digit case, as the source does; the CPF check digits (mod 11) are not computed by the source and are not claimed.
- RegisterModal.FormatCPF and RegisterModal.FormatPhone: the exact mask is proved for exactly 11 digits (and for the CPF also 12) and digit preservation for up to 11. For other lengths only the length bound and the digit prefix are stated, because the replace chain's output there is partial, as typed.
- RegisterModal.Form.HandleSubmit: sends the four-argument call that `register` declares (name, e-mail, CPF, password), not the five-argument call as written, which binds the phone to the password (see Findings and `AsWrittenSendsPhoneAsPassword`).
- RegisterModal.ValidateChecksNameFirst: names only the two name messages. The full order of the ten checks is `RegisterChecks` under `Checks.FirstFailure`, and acceptance is `ValidateAcceptsExactly`.
- The `isLoading` flag that disables the inputs, the dialogs' open and close properties, and the rendering of the forms are not modelled.
- ContactForm: the `catch` branch (error status) is not modelled, because the simulated send never rejects. `FinishSending` is the only way a send ends.
- ProductComparison: the `!products` null check is not modelled, because a list is always present here. A `NaN` return or rating, which would make the comparator inconsistent, is not modelled.
- ProductComparison.Sorted: the sort on the spread copy is modelled as a value (a stable insertion sort), not as the engine's in-place algorithm. It specifies the order that a stable sort must give.
- TestimonialCarousel: the testimonial texts, ratings and images are left out; only the count (5) matters to the state.

## Findings

| source | as written | input that shows it | evidently intended | confidence | as-written member | corrected member |
|---|---|---|---|---|---|---|
| client/src/components/RegisterModal.tsx:146-152 against client/src/contexts/AuthContext.tsx:16, 66-75 | `register` declares four parameters (name, email, cpf, password) but is called with five (name, email, cpf, phone, password), so the masked phone binds to the password parameter and the typed password is dropped | any accepted form, e.g. phone typed "11987654321" (stored as "(11) 98765-4321") with password "Senha123": the account is requested with the password "(11) 98765-4321" | send name, e-mail, CPF and the checked password | high; not executed | RegisterModal.AsWrittenSendsPhoneAsPassword | RegisterModal.RegisterSendsCheckedPassword |
