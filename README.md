# Business rules of the store back office, in Dafny

This project models the validation and computation rules of a small Django
back office: customers, products, suppliers, employees and orders. It also
proves properties of those rules. Each core source file has its own module:

- `CustomerForm`, `CustomerCpfLemmas`, `CustomerModel`
  - the customer form's field cleaners: name, CPF, e-mail, mobile, CEP and number;
  - the customer model's boolean checks and `clean()`;
  - the CPF check-digit rule (modulo 11, weights 10..2 and 11..2).
- `ProductForm`, `ProductModel`
  - the product form's cleaners: whitespace-normalised description, price, stock and supplier;
  - the product model's `clean()`, which strips and then collapses instead of collapsing and then stripping.
- `EmployeeForm`: the password rules of the employee form and the password decision of its `save`.
- `OrderViews`: `view_create` as a method on a `Database` class. One item row is created per submitted entry, in submission order, and the total is accumulated in a loop.
- `SupplierModel`: the CNPJ and phone/mobile regular expressions of the supplier model, as recognisers.
  - The phone pattern is read by a left-to-right reader.
  - The reader is proved sound and complete for a well-formed decomposition.
- `SupplierMask`: the CNPJ input mask of the supplier form, following its four `replace` calls literally. It is proved to equal a closed-form grouping.
- `EmployeeViews`: the `admin_required` gate and the JSON create/update/delete endpoints over an `EmployeeStore` class. The store holds a map from id to record.
- `LoginView`: `login_view`'s resolution of a username or e-mail, and its redirect decision.
- `Outcomes` and `Text` are shared helpers:
  - `Outcomes`: `Option`, `Result` (`Ok` or `Invalid(message)`) and `Check` (`Pass` or `Fail(field, message)`).
  - `Text`: `re.sub(r'\D', '', s)`, `str.strip()` and `re.sub(r'\s+', ' ', s)` over `seq<char>`.

Modelling conventions:

- A raised `ValidationError` is an `Invalid` or `Fail` value carrying the source's own message.
- Money is in whole cents, because prices are decimals with two places.
- Digits are the ASCII digits. Whitespace is the set that Python's `str.isspace` and `\s` agree on.
- Python's `$` also matches just before one final newline. The two recognisers therefore also accept their pattern followed by `'\n'`, as the code does.

Two facts about the code that the model keeps:

- The customer test at customers/tests.py:63-78 expects the form to accept CPF `12345678900`. The form refuses it: its second check digit computes to 9, not 0 (`CustomerCpfLemmas.SampleCpfOfTestsRefused`).
- Order creation (order/views.py:23-57) neither checks nor decrements stock, and it does not run in a transaction.
  - The model creates the order with total 0 before the loop.
  - An unknown product ends the request mid-loop. The items created before it stay, and the order keeps total 0.
  - No product is read for stock or written.

## Model

| member | source | states |
|---|---|---|
| Text.KeepDigits | customers/forms.py:110 | the result holds only digits and is no longer than the input |
| Text.KeepDigitsOfDigits | customers/forms.py:110 | stripping non-digits from a string of digits changes nothing |
| Text.Strip | product/forms.py:30 | the result is the contiguous middle `s[i..j]` of the input, everything before `i` and from `j` on is whitespace, and the result neither starts nor ends with whitespace (so exactly the whitespace at both ends is cut) |
| Text.Collapse | product/forms.py:30 | collapsing keeps emptiness, keeps whether the first character is whitespace, keeps a visible first character, and never lengthens |
| Text.CollapseKeepsNonSpace | product/forms.py:30 | collapsing keeps every non-whitespace character, in order, and adds none |
| Text.StripKeepsNonSpace | customers/forms.py:101-103 | stripping keeps every non-whitespace character, in order, and adds none |
| Text.StripCollapseCommute | product/models.py:40-41 | stripping then collapsing gives the same string as collapsing then stripping |
| Text.CollapseSingleSpaced | product/forms.py:30 | after collapsing, the only whitespace is single plain spaces |
| Text.CollapseOfSingleSpaced | product/forms.py:30 | collapsing leaves a single-spaced string unchanged |
| Text.StripSingleSpaced | product/forms.py:30 | stripping keeps a string single-spaced |
| Text.SingleSpacedMeans | product/forms.py:30 | single-spaced holds iff every whitespace character is ' ' and no two whitespace characters are adjacent |
| Text.StripOfStripped | customers/forms.py:101-103 | a string with no whitespace at either end is its own strip |
| CustomerForm.CleanName | customers/forms.py:96-103 | a missing or empty name gives 'Nome é obrigatório'; a stripped length below 2 gives 'Nome muito curto'; it is accepted iff given with stripped length at least 2, and it returns the stripped name, which has no whitespace at either end |
| CustomerForm.CalculateDigit | customers/forms.py:186-189 | the check digit lies in 0..9; it is 0 exactly when the weighted sum mod 11 is below 2; otherwise adding it to the sum gives a multiple of 11 |
| CustomerForm.ValidateCpfAlgorithm | customers/forms.py:184-204 | false unless there are at least 11 characters and the first eleven are digits (the IndexError and ValueError paths); on an 11-digit string, true iff both check digits match |
| CustomerForm.CleanCpf | customers/forms.py:105-125 | None or empty is returned unchanged; a digit count other than 11 gives 'CPF deve ter 11 dígitos'; 11 digits that are all the same or have wrong check digits give 'CPF inválido'; otherwise it returns exactly the 11 digits |
| CustomerForm.Repeat | customers/forms.py:117 | `c * n` has n characters, all equal to c |
| CustomerForm.CleanEmail | customers/forms.py:127-138 | a non-empty address is accepted iff every stored customer holding it is the instance being edited; the address is returned unchanged; a refusal says 'E-mail já existe' |
| CustomerForm.StartsWithAnyMeans | customers/forms.py:153-155 | `any(s.startswith(code) for code in codes)` holds iff some code in the list is a prefix of s |
| CustomerForm.CleanMobile | customers/forms.py:140-158 | None or empty is returned unchanged; a digit count other than 10 or 11 gives 'Celular inválido'; 10 digits are returned; 11 digits are returned iff they start with a whitelisted DDD, else 'DDD inválido' |
| CustomerForm.CleanZipCode | customers/forms.py:160-172 | accepted iff None, empty, or holding exactly 8 digits; None or empty is returned unchanged; a given CEP is returned as its 8 digits with the punctuation removed; every refusal says 'CEP inválido' |
| CustomerForm.CleanNumber | customers/forms.py:174-182 | accepted iff None or within 1..99999, and returned unchanged; below 1 gives 'Número inválido'; above 99999 gives 'Número muito grande' |
| CustomerCpfLemmas.CheckDigitIsTenTimesSumMod | customers/forms.py:186-189 | the check digit equals the textbook CPF formula (10·S mod 11) mod 10 |
| CustomerCpfLemmas.WithCheckDigits | customers/forms.py:193-200 | appending the two computed check digits to nine digits gives 11 digits that start with those nine |
| CustomerCpfLemmas.WithCheckDigitsPasses | customers/forms.py:193-200 | computed check digits always match; with nine digits that are not all the same, the result is a valid CPF |
| CustomerCpfLemmas.CheckDigitsDetermined | customers/forms.py:193-200 | two 11-digit strings with matching check digits that agree on the first nine digits are equal |
| CustomerCpfLemmas.ReferenceCpfIsValid | customers/forms.py:184-204 | 529.982.247-25 satisfies the rule |
| CustomerCpfLemmas.ReferenceCpfAccepted | customers/forms.py:105-125 | `clean_cpf('52998224725')` returns it unchanged |
| CustomerCpfLemmas.MismatchedCheckDigitsRefused | customers/forms.py:120-122 | any non-empty input with 11 digits whose check digits do not match gives 'CPF inválido' |
| CustomerCpfLemmas.AlteredLastDigitRefused | customers/forms.py:197-200 | changing the last digit of the reference CPF makes it invalid |
| CustomerCpfLemmas.SampleCpfOfTestsRefused | customers/forms.py:193-200 | for '12345678900' the second check digit computes to 9, so `clean_cpf` refuses it |
| CustomerCpfLemmas.RepeatedDigitsRefused | customers/forms.py:116-118 | '11111111111' satisfies both check digits, yet it is refused as 'CPF inválido' |
| CustomerCpfLemmas.CleanCpfIdempotent | customers/forms.py:105-125 | cleaning the accepted output again returns it unchanged |
| CustomerCpfLemmas.CleanNameIdempotent | customers/forms.py:96-103 | cleaning an accepted name again returns it unchanged |
| CustomerCpfLemmas.CleanZipCodeIdempotent | customers/forms.py:160-172 | cleaning an accepted CEP again returns it unchanged |
| CustomerModel.AreaCodesAgree | customers/models.py:93 | the model's DDD whitelist is the form's whitelist |
| CustomerModel.ValidateCpf | customers/models.py:48-80 | a total function, so it never raises; true iff the stripped digits are eleven, not all the same, with matching check digits |
| CustomerModel.ValidateMobile | customers/models.py:82-97 | true iff the stripped value has 10 or 11 digits, with the DDD whitelist applied only at 11 |
| CustomerModel.ValidateZipCode | customers/models.py:99-108 | true iff the stripped value has exactly 8 digits |
| CustomerModel.Clean | customers/models.py:30-46 | passes iff all four checks pass; otherwise the first failing check, in the order name, cpf, mobile, zip_code, is raised keyed by its field; empty optional fields and an empty name skip their checks |
| CustomerModel.CpfAgreesWithForm | customers/models.py:48-80 | for a non-empty value, `_validate_cpf` is true iff the form's `clean_cpf` succeeds |
| CustomerModel.MobileAgreesWithForm | customers/models.py:82-97 | for a non-empty value, `_validate_mobile` is true iff the form's `clean_mobile` succeeds |
| CustomerModel.ZipAgreesWithForm | customers/models.py:99-108 | for a non-empty value, `_validate_zip_code` is true iff the form's `clean_zip_code` succeeds |
| CustomerModel.FormOutputPassesModel | customers/models.py:30-46 | a customer built from the form's cleaned name, CPF, mobile and CEP passes the model's `clean()` |
| CustomerModel.CpfCleanedPasses | customers/models.py:36-38 | the form's cleaned CPF passes the model's CPF check |
| CustomerModel.MobileCleanedPasses | customers/models.py:40-42 | the form's cleaned mobile passes the model's mobile check |
| CustomerModel.ZipCleanedPasses | customers/models.py:44-46 | the form's cleaned CEP passes the model's CEP check |
| ProductForm.NormalizeDescription | product/forms.py:30 | the result is normalised (no whitespace at either end, and only single plain spaces inside), no longer than the input, and keeps every non-whitespace character of the input in order |
| ProductForm.StripOfCollapseNormalised | product/forms.py:30 | collapsing then stripping yields a normalised string |
| ProductForm.NormalisedIsFixedPoint | product/forms.py:30 | a normalised string is left unchanged by the normalisation |
| ProductForm.NormalizeIdempotent | product/forms.py:30 | normalising twice is the same as normalising once |
| ProductForm.CleanDescription | product/forms.py:28-33 | accepted iff the normalised description has at least 3 characters, and then it returns that normalised string; a refusal says 'Descrição muito curta' |
| ProductForm.CleanDescriptionIdempotent | product/forms.py:28-33 | cleaning an accepted description again returns it unchanged |
| ProductForm.CleanPrice | product/forms.py:36-42 | accepted iff given and above 0; None gives 'Preço é obrigatório'; a price at or below 0 gives 'Preço deve ser maior que zero'; an accepted price is returned unchanged |
| ProductForm.CleanQtyStock | product/forms.py:45-53 | None, negative and above 99999 each give their message; it is accepted iff within 0..99999, and returned unchanged |
| ProductForm.CleanSupplier | product/forms.py:56-60 | accepted iff a supplier is given, and that supplier is returned; otherwise 'Fornecedor inválido' |
| ProductModel.StripThenCollapse | product/models.py:40-41 | the model's strip-then-collapse equals the form's normalisation |
| ProductModel.DescriptionCheck | product/models.py:39-47 | it passes iff non-empty with a normalised length of 3..100; an empty description gives 'A descrição é obrigatória.', a normalised length below 3 'A descrição deve ter pelo menos 3 caracteres.', above 100 'A descrição ultrapassa o limite de 100 caracteres.'; any failure is keyed 'description' |
| ProductModel.Clean | product/models.py:34-65 | passes iff description, price, stock and supplier all pass; otherwise the first failure, in that order, is raised keyed by its field with its own message: a missing price 'O preço é obrigatório.', a price at or below 0 'O preço deve ser maior que zero.', a missing stock 'A quantidade em estoque é obrigatória.', a negative one 'A quantidade não pode ser negativa.', one above 99999 'A quantidade é muito alta.', a missing or 0 supplier id 'Selecione um fornecedor válido.' |
| ProductModel.PriceRulesAgree | product/models.py:71-75 | the form and the model accept exactly the same present prices and return the same value |
| ProductModel.QtyRulesNest | product/models.py:77-81 | every stock quantity the form accepts passes the model's own stock check; 100000 passes the model's but not the form's |
| ProductModel.CleanPrice | product/models.py:71-75 | accepted iff positive, and returned unchanged |
| ProductModel.CleanQtyStock | product/models.py:77-81 | accepted iff not negative, and returned unchanged; there is no upper bound here |
| ProductModel.CleanedDescriptionCheck | product/models.py:39-47 | a description the form accepted passes the model's check iff it has at most 100 characters |
| ProductModel.FormOutputPassesModel | product/models.py:34-65 | a product built from the form's cleaned fields passes `clean()` iff its description has at most 100 characters |
| EmployeeForm.Clean | employees/forms.py:69-86 | a mismatch when either field is filled gives 'As senhas não coincidem'; a matching password shorter than 6 gives the length error; a new employee with no password gives the required error; it is accepted iff none of these applies |
| EmployeeForm.SaveAction | employees/forms.py:88-103 | it sets the given password iff one is given; the default password only for a new employee without one; otherwise it keeps the current password |
| EmployeeForm.Apply | employees/forms.py:93-98 | the stored password after each action: the given one, 'changeme123', or the current one |
| EmployeeForm.EmployeeRecord.Save | employees/forms.py:88-103 | the record's new password is what `SaveAction` decides for its state before saving; it has a pk afterwards iff it had one or was committed |
| EmployeeForm.ValidFormNeverUsesDefault | employees/forms.py:69-103 | after a successful `clean`, `save` never sets 'changeme123', and a new employee gets the password it was given (at least 6 characters) |
| EmployeeForm.MismatchBeforeLength | employees/forms.py:75-80 | '123' against '1234' reports the mismatch, not the length |
| EmployeeForm.BlankOnEditKeepsPassword | employees/forms.py:69-98 | editing with both fields empty is valid and keeps the current password |
| OrderViews.QuantityOf | order/views.py:39 | a missing quantity counts as 1; a present one is used as given |
| OrderViews.KnownPrefix | order/views.py:37-40 | the number of leading entries whose products exist; the entry after them, if any, names an unknown product |
| OrderViews.ItemsForSpec | order/views.py:37-50 | one item per entry, in order, with that entry's product and quantity and subtotal price × quantity |
| OrderViews.TotalAppend | order/views.py:52 | adding an item adds its subtotal to the total |
| OrderViews.TotalConcat | order/views.py:52-54 | the total of two lists of items is the sum of their totals |
| OrderViews.TotalBounds | order/views.py:52-54 | with non-negative subtotals the total is non-negative and at least each subtotal |
| OrderViews.SingleLineTotal | order/views.py:42-54 | an order of one line totals price × quantity |
| OrderViews.ItemsForStep | order/views.py:37-52 | one more known entry appends its item and adds its subtotal to the total |
| OrderViews.KnownPrefixStopsAt | order/views.py:40 | the first entry with an unknown product is where the known prefix ends |
| OrderViews.Database.CreateOrder | order/views.py:23-57 | an unknown customer fails with nothing written; otherwise the next order id is used, and the items created are one per entry of the longest prefix whose products exist, with price × quantity; if every product exists the order's total is the sum of the subtotals (0 for no entries) and the view redirects; otherwise the order keeps total 0, the earlier items stay, and the failure names the unknown entry's position; products and customers are never written |
| SupplierModel.CnpjPieces | suppliers/models.py:59 | a formatted CNPJ's five groups are digits and its four separators are not |
| SupplierModel.CnpjHasFourteenDigits | suppliers/models.py:55-60 | an accepted CNPJ holds exactly 14 digits: its five groups, in order |
| SupplierModel.SampleCnpjAccepted | suppliers/models.py:59 | '12.345.678/0001-90' is accepted |
| SupplierModel.UnformattedCnpjRefused | suppliers/models.py:59 | the bare 14 digits, and a layout with '-' and '/' swapped, are refused |
| SupplierModel.ParseNumberSound | suppliers/models.py:39 | the number part that is read is well-formed and renders back to the input |
| SupplierModel.ParseFromSpaceSound | suppliers/models.py:39 | what is read after the ')' is an optional whitespace and a well-formed number that render back to the input |
| SupplierModel.ParseFromCloseSound | suppliers/models.py:39 | what is read after the area code renders back to the input |
| SupplierModel.ParsePhoneSound | suppliers/models.py:39 | whatever the reader returns is a well-formed decomposition that renders back to the input |
| SupplierModel.AreaThenRest | suppliers/models.py:39 | a reading after two area-code digits renders back the whole phone |
| SupplierModel.ParseNumberComplete | suppliers/models.py:39 | every well-formed number part is read back as itself |
| SupplierModel.PlainNumberRead | suppliers/models.py:39 | a number without a dash is split four digits from its end |
| SupplierModel.DashedNumberRead | suppliers/models.py:39 | a number with a dash is split at the dash |
| SupplierModel.ParseFromSpaceComplete | suppliers/models.py:39 | the optional whitespace and the number are read back as they were |
| SupplierModel.SpaceRead | suppliers/models.py:39 | the optional whitespace is recognised exactly when it is there |
| SupplierModel.ParseFromCloseComplete | suppliers/models.py:39 | the optional ')' and the rest are read back as they were |
| SupplierModel.ParsePhoneAfterOpen | suppliers/models.py:39 | after the optional '(' the reader takes two digits of area code |
| SupplierModel.ParsePhoneComplete | suppliers/models.py:39 | every well-formed decomposition is read back as itself, so the pattern is recognised completely and without ambiguity |
| SupplierModel.DigitsOfPhone | suppliers/models.py:39 | the digits of a phone are its area code, its prefix and its line, in that order |
| SupplierModel.AcceptedPhoneShape | suppliers/models.py:37-48 | every well-formed phone has 10 or 11 digits and 10 to 15 characters |
| SupplierModel.ParsedPhoneShape | suppliers/models.py:37-48 | whatever the reader accepts has 10 or 11 digits and at most 15 characters |
| SupplierModel.PhoneAcceptedShape | suppliers/models.py:37-48 | every accepted phone has 10 or 11 digits; without a final newline it fits max_length=15 |
| SupplierModel.NewlineEndedShape | suppliers/models.py:39 | the final newline that `$` lets through adds no digit |
| SupplierModel.DashedMobileNumber | suppliers/models.py:39 | '98765-4321' is read as prefix '98765', a dash and line '4321' |
| SupplierModel.AcceptedByParts | suppliers/models.py:39 | a string rendered from a well-formed decomposition is accepted |
| SupplierModel.SampleMobileAccepted | suppliers/models.py:39 | '(11) 98765-4321' is accepted |
| SupplierModel.SamplePhoneAccepted | suppliers/models.py:45 | '(11) 3456-7890' is accepted |
| SupplierModel.OpeningParenthesisAloneAccepted | suppliers/models.py:39 | '(11 98765-4321' is accepted: the parentheses are independent |
| SupplierModel.ClosingParenthesisAloneAccepted | suppliers/models.py:39 | '11) 98765-4321' is accepted |
| SupplierModel.SecondSpaceRefused | suppliers/models.py:39 | a second whitespace after the area code is not the start of a number |
| SupplierModel.TwoSpacesRefused | suppliers/models.py:39 | '(11)  98765-4321' is refused: at most one whitespace |
| SupplierMask.Truncate | suppliers/static/script/supplier_form.js:6 | keeps the first 14 characters at most; a shorter value is unchanged |
| SupplierMask.FindDotGroup | suppliers/static/script/supplier_form.js:11 | the leftmost match of `\.(\d{3})(\d)`, or none when nothing matches |
| SupplierMask.FindRun | suppliers/static/script/supplier_form.js:12 | the leftmost match of `(\d{4})(\d)`, or none when nothing matches |
| SupplierMask.StepsUpToTwo | suppliers/static/script/supplier_form.js:9-12 | with at most 2 digits the four replacements change nothing |
| SupplierMask.StepsUpToFive | suppliers/static/script/supplier_form.js:9-12 | with 3 to 5 digits only the first '.' is inserted |
| SupplierMask.InsertSecondDot | suppliers/static/script/supplier_form.js:10 | the second replacement puts '.' after the 5th digit |
| SupplierMask.InsertSlash | suppliers/static/script/supplier_form.js:11 | the third replacement puts '/' after the 8th digit |
| SupplierMask.InsertDash | suppliers/static/script/supplier_form.js:12 | the fourth replacement puts '-' after the 12th digit |
| SupplierMask.DotsAfterTwoAndFive | suppliers/static/script/supplier_form.js:9-10 | with at least 6 digits the first two replacements insert both dots |
| SupplierMask.StepsUpToEight | suppliers/static/script/supplier_form.js:9-12 | with 6 to 8 digits only the two dots are inserted |
| SupplierMask.SlashAfterEight | suppliers/static/script/supplier_form.js:11 | with at least 9 digits the '/' goes after the 8th digit |
| SupplierMask.NoRunUpToTwelve | suppliers/static/script/supplier_form.js:12 | with at most 12 digits there is no run for the dash |
| SupplierMask.StepsUpToTwelve | suppliers/static/script/supplier_form.js:9-12 | with 9 to 12 digits the dots and the slash are inserted, and no dash |
| SupplierMask.FirstRunAfterSlash | suppliers/static/script/supplier_form.js:12 | the leftmost run of five digits starts right after the '/' |
| SupplierMask.StepsFromThirteen | suppliers/static/script/supplier_form.js:9-12 | with 13 or 14 digits all four separators are inserted |
| SupplierMask.MaskIsGrouped | suppliers/static/script/supplier_form.js:5-12 | the mask inserts '.' after digit 2 (with at least 3 digits), '.' after digit 5 (at least 6), '/' after digit 8 (at least 9) and '-' after digit 12 (at least 13) |
| SupplierMask.GroupedKeepsDigits | suppliers/static/script/supplier_form.js:9-12 | the grouping adds no digit and drops none |
| SupplierMask.MaskKeepsDigits | suppliers/static/script/supplier_form.js:5-6 | the digits of the output are the first 14 digits of the input, in order |
| SupplierMask.GroupedLength | suppliers/static/script/supplier_form.js:9-12 | one separator is added per group boundary the digits reach |
| SupplierMask.MaskLength | suppliers/static/script/supplier_form.js:5-12 | the output has at most 18 characters |
| SupplierMask.GroupedFourteenAt | suppliers/static/script/supplier_form.js:9-12 | fourteen characters are laid out as dd.ddd.ddd/dddd-dd, position by position |
| SupplierMask.GroupedFourteenIsCnpj | suppliers/static/script/supplier_form.js:9-12 | fourteen digits grouped form a CNPJ in the model's pattern |
| SupplierMask.MaskOfFourteenDigitsIsCnpj | suppliers/static/script/supplier_form.js:5-12 | an input with at least 14 digits is masked into a CNPJ that the pattern at suppliers/models.py line 59 accepts |
| SupplierMask.MaskIdempotent | suppliers/static/script/supplier_form.js:5-12 | masking the masked value changes nothing |
| SupplierMask.RegroupFormatted | suppliers/static/script/supplier_form.js:9-12 | grouping the digits of a formatted CNPJ gives it back |
| SupplierMask.MaskOfFormattedCnpj | suppliers/static/script/supplier_form.js:5-12 | a CNPJ already in the accepted layout passes through the mask unchanged |
| EmployeeViews.AdminGate | employees/views.py:11-27 | the view runs iff signed in as 'Administrador'; an anonymous request goes to 'login'; any other signed-in user goes to 'home' |
| EmployeeViews.ProfileOf | employees/views.py:60-77 | every optional text field is set from the body, '' where absent, and no other key |
| EmployeeViews.NumeroOf | employees/views.py:72 | a missing or zero `numero` is stored as no number; otherwise the given one |
| EmployeeViews.CreateError | employees/views.py:46-57 | username, e-mail and password are checked in that order, and the first missing one gives its 400 message; then an e-mail already stored gives 'E-mail já cadastrado'; no error iff all three are given and the e-mail is new |
| EmployeeViews.NewEmployee | employees/views.py:60-77 | the stored record has the given username, e-mail and password; a missing access_level becomes 'Usuário'; `numero` follows NumeroOf; other missing text fields become '' |
| EmployeeViews.Merge | employees/views.py:131-152 | username, e-mail and password change only when a non-empty value is given; every other field is overwritten from the body, with its default when absent |
| EmployeeViews.UpdateClearsAbsentFields | employees/views.py:136-148 | a profile field absent from the body is cleared, and access_level resets to 'Usuário' |
| EmployeeViews.UpdateForgetsOldProfile | employees/views.py:131-152 | only username, e-mail and password survive from the old record |
| EmployeeViews.UpdateIdempotent | employees/views.py:131-152 | applying the same body twice has the effect of applying it once |
| EmployeeViews.CompleteUpdateIsCreate | employees/views.py:131-152 | an update whose body has username, e-mail and password gives the record create would store |
| EmployeeViews.Guard | employees/views.py:37-38 | the request reaches the view iff the gate lets it through and the HTTP method is the allowed one; otherwise the gate's redirect comes first, then 405 |
| EmployeeViews.EmployeeStore.Create | employees/views.py:37-88 | usernames stay unique and ids increasing; a request stopped by the guard, a malformed body ('Dados inválidos') or a `CreateError` answers without changing the store; a username already held fails on the unique column as a server error with the store unchanged; otherwise exactly one record, `NewEmployee` of the body, is added under a fresh id, which is returned |
| EmployeeViews.EmployeeStore.Update | employees/views.py:122-166 | past the guard, an unknown pk gives 404 before the body is decoded; a malformed body gives 'Dados inválidos'; a merged username held by another record is a server error; these leave the store unchanged; otherwise exactly that record is replaced by `Merge` of it and the body |
| EmployeeViews.EmployeeStore.Delete | employees/views.py:169-185 | past the guard, an unknown pk gives 404 and leaves the store unchanged; otherwise exactly that record is removed |
| LoginView.MatchingIds | config/views.py:27 | exactly the ids of the employees whose e-mail equals the input |
| LoginView.Resolve | config/views.py:22-32 | input without '@' is used verbatim; with '@' and several matching employees the lookup fails; a changed username always belongs to an employee whose e-mail is the input |
| LoginView.ResolveByEmail | config/views.py:24-28 | an e-mail held by exactly one employee resolves to that employee's username |
| LoginView.ResolveUnknownEmail | config/views.py:29-30 | an e-mail no employee holds is used as typed |
| LoginView.Login | config/views.py:12-47 | a signed-in request goes to 'home'; the view redirects iff signed in or a POST whose resolved username `authenticate` accepts, and then to `next` or 'home'; it shows the empty form iff a GET that is not signed in; it re-renders the form with 'Usuário ou senha inválidos!' iff a POST whose resolved username `authenticate` refuses; it is a server error iff a POST without a username or with an e-mail held by several employees |
| LoginView.EmailLoginIsUsernameLogin | config/views.py:24-35 | signing in with an e-mail held by exactly one employee behaves as signing in with that employee's username |

## Left out

- HTTP, templates, sessions, the `messages` framework and the welcome message are left out. Redirect targets are kept as names.
- `authenticate` is a parameter of `LoginView.Login`. `login()` is not modelled.
- Password hashing (`set_password`, `create_user`) is abstract: a record holds the password it was last set to.
- Django's field coercion before `clean_*`, `super().clean()`, `EmailField` format checks, `max_length` and database unique constraints are not modelled. The exception is the unique username column, which is what makes `EmployeeStore.Create` and `Update` fail.
- Python's `\d`, `\D` and `int()` also accept non-ASCII digits. The model uses ASCII digits only.
- Decimal arithmetic: money is in whole cents. `ProductForm.CleanPrice` treats `round(price, 2)` as the identity, so prices with more than two decimal places are not modelled.
- ProductModel.CleanPrice and ProductModel.CleanQtyStock take a present value: the TypeError they raise on None is not modelled.
- OrderViews.QuantityOf takes the quantity as an integer: the `int()` conversion of strings and its ValueError are not modelled.
- OrderViews.Database.CreateOrder takes the entries already decoded. Malformed `products` JSON and an entry without `id` are not modelled.
- The GET branch of `view_create`, `view_index` and `view_delete` are not modelled.
- EmployeeViews.Payload holds text values and `numero`. A JSON body that is not an object, non-text values and `null` are not modelled. A body that does not decode is `None`.
- EmployeeViews.EmployeeStore.Create does not model `normalize_email`, which lower-cases the domain part before the record is stored.
- EmployeeViews.EmployeeStore.Create stores the username as sent: `create_user` also applies `normalize_username` (Unicode NFKC), so two usernames that differ only before NFKC are distinct in the model and collide in the code. Unicode normalisation is out of reach of `seq<char>`. `EmployeeStore.Update` likewise compares usernames as sent.
- OrderViews.Database.CreateOrder does not model the `max_digits=10, decimal_places=2` limit of `Order.total_amount` and `OrderItem.subtotal` (order/models.py:16, 41): cents are unbounded, so a subtotal or total of 10^8 or more, which the database refuses, is stored.
- A server error carries no message. The text of `str(e)` is not modelled.
- `employee_list` and `employee_detail` only read and render. They are not part of this model.
- Transactions and concurrency are not modelled: each request runs alone.
- The supplier model's naming (`Fornecedor` and `cpnj`, against `Supplier` and `cnpj` elsewhere) is not modelled. Only its two regular expressions are.
- The CNPJ mask's DOM event handling is not modelled. Only the function from the field's value to its new value is.
