# BeautyCut front-end rules, modelled in Dafny

BeautyCut is a salon-booking web front end (React over a hosted backend).
This project models the small pieces of logic the front end owns and proves
what they promise:

- the mock session holder (`AuthProvider`): `login` and `signup` install a
  fabricated user, `logout` clears it, and `useAuth` fails outside a provider;
- `mapProfileToUser`, the profile-row-to-user transform with `||` defaults;
- the salon search page: a case-insensitive substring search over name,
  location and services, then a stable sort by name, rating or distance,
  stored in the page's `salons` state;
- the salon-listing form: its field-by-field schema and its default values;
- the services and staff sections of that form: appending a blank entry,
  removing the entry at a position, and the comma-separated experts field;
- the account menu: initials, and the entries chosen by the user's role;
- the profile page: the avatar initials fallback chain, the displayed
  values, and the name editor's Save/Edit/Cancel behaviour;
- the profile hook: the avatar file extension and storage path, and the
  rename and upload-then-update mutations against a backend held as state;
- the featured-salons strip: the fallback to the three default salons and
  the per-card defaults;
- the derived contact e-mail shown on a salon's details.

JavaScript semantics the rules depend on are written out in two shared
modules. `JsValues` has `null`/`undefined`/set properties and `||` defaults
("" and 0 are falsy, an empty array is truthy). `JsStrings` has `trim` with
the ECMAScript white-space set, ASCII case mapping, `includes`, `split` on
one character (where "" splits to `[""]`), `join`, and white-space removal.

Code that changes state is modelled as classes whose methods change fields:
`AuthProvider`, the form store shared by the two form sections, the salon
page's state, the profile editor, and the profile backend. Each method's
`ensures` ties the new state to a specification function, and the lemmas
state the properties of those functions.

Two properties of the listing form, as written, are worth knowing:
- `description` and `cancellationPolicy` are required but have no input on
  the page. A form filled through the page therefore keeps them at "" and is
  always rejected (`ListSalon.PageFormNeverAccepted`).
- `website` and `googleMapsLink` default to "" rather than `undefined`. So
  they are rejected whenever the URL check refuses "".

## Model

| member | source | states |
|---|---|---|
| AuthContext.LoginUser | src/contexts/AuthContext.tsx:28-34 | The login user has id "1" and the given e-mail and role. Its name is "Salon Owner" exactly for a salon owner and "John Doe" exactly for a customer. Its avatar is the dicebear seed prefix followed by the e-mail |
| AuthContext.SignupUser | src/contexts/AuthContext.tsx:51-57 | The signup user has id "1" and the given name, e-mail and role. Its avatar is the seed prefix followed by the name |
| AuthContext.Apply | src/contexts/AuthContext.tsx:25-78 | One operation on the session slot; its contract is carried by ApplyIgnoresStateAndPassword |
| AuthContext.Run | src/contexts/AuthContext.tsx:25-78 | A sequence of operations; its contract is carried by LastCallWins and SignedInAfterRun |
| AuthContext.MayOpenSalonAdmin | src/pages/SalonAdminDashboard.tsx:14 | The guard of the salon administration page; its contract is carried by SalonAdminGuardAfter |
| AuthContext.ApplyIgnoresStateAndPassword | src/contexts/AuthContext.tsx:25-78 | The result of an operation depends neither on the previous user nor on the password |
| AuthContext.LastCallWins | src/contexts/AuthContext.tsx:25-78 | After any non-empty sequence of operations, the slot holds what the last operation alone gives from no user |
| AuthContext.SignedInAfterRun | src/contexts/AuthContext.tsx:25-78 | Someone is signed in after a sequence iff its last operation is a login or signup, or the sequence is empty and someone already was |
| AuthContext.SignupThenLogin | src/contexts/AuthContext.tsx:25-70 | A signup followed by a login leaves exactly the login user |
| AuthContext.SalonAdminGuardAfter | src/pages/SalonAdminDashboard.tsx:14 | The salon administration page is open after an operation iff it was a login or signup as a salon owner |
| AuthContext.AuthProvider.constructor | src/contexts/AuthContext.tsx:22 | Initially no user is signed in |
| AuthContext.AuthProvider.Login | src/contexts/AuthContext.tsx:25-47 | The slot becomes the login user, whatever it held |
| AuthContext.AuthProvider.Signup | src/contexts/AuthContext.tsx:49-70 | The slot becomes the signup user, whatever it held |
| AuthContext.AuthProvider.Logout | src/contexts/AuthContext.tsx:72-78 | The slot becomes empty, whatever it held |
| AuthContext.UseAuth | src/contexts/AuthContext.tsx:87-93 | Fails with "useAuth must be used within an AuthProvider" exactly when there is no provider; otherwise returns the provider |
| AuthContext.SignupThenLoginSession | src/contexts/AuthContext.tsx:25-70 | A client that signs up and then logs in sees a user with the login's e-mail and role |
| AuthService.MapProfileToUser | src/services/authService.ts:44-50 | The id and avatar are copied verbatim, including null or missing. The name is the full name when non-empty, else "". The e-mail is the argument. The role is the stored role when non-empty, else "user" |
| AuthService.ProfileEmailIgnored | src/services/authService.ts:47 | The e-mail stored in the row never affects the result |
| AuthService.MappedRoleDeclared | src/services/authService.ts:48 | The mapped role is "user" or "salon_owner" iff the stored role is missing, empty or one of those two: nothing narrows it |
| JsStrings.TrimStart | src/components/salon/ServicesSection.tsx:123 | Removes a white-space prefix and leaves a suffix that does not start with white space |
| JsStrings.TrimEnd | src/components/salon/ServicesSection.tsx:123 | Removes a white-space suffix and leaves a prefix that does not end with white space |
| JsStrings.TrimTrimmed | src/components/salon/ServicesSection.tsx:123 | The result of `trim()` starts and ends with non-white space, or is empty |
| JsStrings.TrimSlice | src/components/salon/ServicesSection.tsx:123 | The result of `trim()` is a slice of the input with only white space before and after it |
| JsStrings.TrimLeadingSpace | src/components/salon/ServicesSection.tsx:123 | A leading space does not change the trimmed result |
| JsStrings.Trim | src/components/salon/ServicesSection.tsx:123 | `trim()`; its contract is carried by TrimTrimmed and TrimSlice: the result is a slice with only white space around it, and has no white space at either end |
| JsStrings.Lower | src/components/salon/SalonInfo.tsx:48 | Keeps the length. Each ASCII capital becomes its own small letter, 32 code points further on, and every other character is kept. So no capital is left, and text without capitals is unchanged |
| JsStrings.Upper | src/components/UserMenu.tsx:22 | Keeps the length. Each ASCII small letter becomes its own capital, 32 code points back, and every other character is kept. So no small letter is left, and text without small letters is unchanged |
| JsStrings.Contains | src/pages/Salons.tsx:101-103 | `includes`: some suffix of the text starts with the pattern. ContainsEmpty: every text includes "" |
| JsStrings.Join | src/components/salon/ServicesSection.tsx:121 | `join(sep)`; its contract is carried by SplitJoin: splitting a list joined with a one-character separator gives it back when no element holds the separator |
| JsStrings.Split | src/components/salon/ServicesSection.tsx:123 | `split` on one character gives at least one piece, and no piece holds the separator |
| JsStrings.SplitAppendSeparator | src/components/salon/ServicesSection.tsx:123 | A separator at the end of the text adds one empty last piece, and leaves the other pieces alone |
| JsStrings.SplitJoin | src/components/UserMenu.tsx:19 | Splitting a list joined with a one-character separator gives the list back when no element holds the separator |
| JsStrings.SplitLast | src/hooks/useProfileData.ts:57 | The last piece is a suffix of the text. It follows the last separator when there is one, and is the whole text when there is none |
| JsStrings.RemoveWhitespace | src/components/salon/SalonInfo.tsx:48 | The result of `replace(/\s+/g, '')` holds no white space. Text of only white space gives "", and text without white space comes back unchanged |
| JsStrings.RemoveWhitespaceAppend | src/components/salon/SalonInfo.tsx:48 | White-space removal distributes over concatenation |
| JsStrings.LowerAppend | src/components/salon/SalonInfo.tsx:48 | Lower-casing distributes over concatenation |
| JsStrings.UpperAppend | src/components/UserMenu.tsx:22 | Upper-casing distributes over concatenation |
| ListOps.DropPositionSpec | src/components/salon/ServicesSection.tsx:27 | Filtering out position i of a list, for i in range, drops exactly that entry and keeps the rest in order. For any other index the list is unchanged |
| ListOps.AppendThenDropLast | src/components/salon/StaffSection.tsx:10-21 | Appending an entry and then filtering out the last position gives the list back |
| ListOps.DropPosition | src/components/salon/ServicesSection.tsx:27 | `filter((_, i) => i !== index)`; its contract is carried by DropPositionSpec |
| ListOps.Map | src/components/salon/ServicesSection.tsx:123 | `map(f)` keeps the length and puts f of each element at its position |
| ListOps.MapAppend | src/components/salon/ServicesSection.tsx:123 | Mapping distributes over concatenation |
| SalonsPage.Filter | src/pages/Salons.tsx:100-104 | Every kept salon matches the term. Each matching salon is kept exactly as often as it occurs, and no other salon is kept |
| SalonsPage.FilterEmptyTerm | src/pages/Salons.tsx:99-105 | The empty term matches every salon, so skipping the filter for it changes nothing |
| SalonsPage.Matches | src/pages/Salons.tsx:100-104 | The search test: the lower-cased term is included in the lower-cased name, location or some service. Its contract is carried by Filter and FilterEmptyTerm |
| SalonsPage.FilterAppend | src/pages/Salons.tsx:100-104 | Filtering two lists in turn gives the filter of their concatenation: the filter keeps the input order |
| SalonsPage.FilterSingle | src/pages/Salons.tsx:100-104 | A single salon is kept exactly when it matches |
| SalonsPage.LexLess | src/pages/Salons.tsx:111 | The name order; its contract is carried by LexTrichotomy and LexTransitive |
| SalonsPage.OrderOf | src/pages/Salons.tsx:109-133 | The comparator chosen by the sort key; its contract is carried by ListingOrdered, ListingUnsorted and ListingByDistanceOrdered |
| SalonsPage.Before | src/pages/Salons.tsx:108-134 | The comparator returns a negative number; its contract is carried by BeforeAsymmetric and NotBeforeTransitive |
| SalonsPage.LexTrichotomy | src/pages/Salons.tsx:111 | The name order is total and asymmetric |
| SalonsPage.LexTransitive | src/pages/Salons.tsx:111 | The name order is transitive |
| SalonsPage.BeforeAsymmetric | src/pages/Salons.tsx:108-134 | No two salons each come before the other under any comparator of the page |
| SalonsPage.NotBeforeTransitive | src/pages/Salons.tsx:108-134 | "Not before" is transitive among salons the comparator can rank: each comparator is a weak order |
| SalonsPage.TiedNotBefore | src/pages/Salons.tsx:108-134 | Two salons the comparator ties with a third are not ordered against each other |
| SalonsPage.Insert | src/pages/Salons.tsx:108-134 | Insertion adds exactly one copy of the salon |
| SalonsPage.Sort | src/pages/Salons.tsx:108-134 | The sort is a permutation of its input |
| SalonsPage.InsertSorted | src/pages/Salons.tsx:108-134 | Inserting a rankable salon into a sorted list keeps it sorted |
| SalonsPage.SortSorted | src/pages/Salons.tsx:108-134 | Sorting rankable salons leaves no pair out of order |
| SalonsPage.SortNeverBefore | src/pages/Salons.tsx:130-132 | A comparator that always returns 0 leaves the order unchanged |
| SalonsPage.InsertTiedWith | src/pages/Salons.tsx:108-134 | An inserted salon lands ahead of every salon it is tied with, so the tied salons keep their order behind it |
| SalonsPage.SortStable | src/pages/Salons.tsx:108-134 | The sort is stable: the salons tied with any given salon appear in the sorted list in their input order |
| SalonsPage.Listing | src/pages/Salons.tsx:96-134 | The filtered and sorted list; its contract is carried by ListingContents, ListingEmptyTerm and ListingOrdered |
| SalonsPage.ListingContents | src/pages/Salons.tsx:96-108 | The listing holds exactly the matching mock salons, none dropped or repeated |
| SalonsPage.ListingEmptyTerm | src/pages/Salons.tsx:96-99 | An empty search keeps every mock salon |
| SalonsPage.MockSalons | src/pages/Salons.tsx:31-51 | The page's two mock salons, both with coordinates. ListingContents and ListingEmptyTerm state what the listing takes from them |
| SalonsPage.ListingOrdered | src/pages/Salons.tsx:110-113 | By name the listing ascends; by rating the ratings never increase |
| SalonsPage.ListingUnsorted | src/pages/Salons.tsx:129-132 | An unknown sort key, or the distance sort without the user's location, keeps the filtered order |
| SalonsPage.ListingByDistanceOrdered | src/pages/Salons.tsx:114-128 | With the user's location known, the listing is ordered by the distance function |
| SalonsPage.SalonsPageState.constructor | src/pages/Salons.tsx:54-57 | The page starts with no search term, sorted by name, with no location, showing the mock salons |
| SalonsPage.SalonsPageState.RefreshListing | src/pages/Salons.tsx:95-137 | The effect stores the filtered and sorted listing, which holds exactly the matching mock salons |
| ListSalon.RuleOf | src/pages/ListSalon.tsx:25-70 | Every minimum-length rule asks for at least one character |
| ListSalon.SchemaOrder | src/pages/ListSalon.tsx:25-70 | The schema's keys in their written order, joined from its commented sections (basic details, services, staff, ambiance, booking, facilities, safety, additional). SchemaPlaced states its contract |
| ListSalon.Position | src/pages/ListSalon.tsx:25-70 | A field's place among the schema's keys; PositionInSchema states its contract |
| ListSalon.PositionInSchema | src/pages/ListSalon.tsx:25-70 | Every field has a place among the schema's keys, and the schema holds that field there |
| ListSalon.SchemaPlaced | src/pages/ListSalon.tsx:25-70 | Every key of the schema stands at its own place, so no key occurs twice |
| ListSalon.FailingAmongInOrder | src/pages/ListSalon.tsx:25-70 | Dropping the accepted fields from a list in schema order leaves a list in schema order |
| ListSalon.Message | src/pages/ListSalon.tsx:27-63 | The message each rule attaches to its field; zod's own "Invalid url" for the two URL fields. DefaultsFirstMessage and ErrorMessages state its use |
| ListSalon.MessagesOf | src/pages/ListSalon.tsx:25-70 | Messages taken field by field hold the message of each listed field, and only those |
| ListSalon.Issues | src/pages/ListSalon.tsx:25-70 | A field is reported iff it fails its rule. The reported fields come in strictly increasing schema place: in the schema's key order, each once |
| ListSalon.FieldAccepts | src/pages/ListSalon.tsx:25-70 | One field's rule; its contract is carried by AcceptsEveryField and EmptyValueReported |
| ListSalon.Accepts | src/pages/ListSalon.tsx:25-70 | `safeParse(...).success`; its contract is carried by AcceptsEveryField and AcceptsExactly |
| ListSalon.MeetsSchema | src/pages/ListSalon.tsx:25-70 | The schema written out field by field; its contract is carried by AcceptsExactly |
| ListSalon.ErrorMessages | src/pages/ListSalon.tsx:25-70 | The message of every failing field and of no other field. There is one message per reported field, and the k-th is the message of the k-th reported field, so they follow the schema's key order |
| ListSalon.DefaultsFirstMessage | src/pages/ListSalon.tsx:27 | The first message for the default form is the salon-name length message |
| ListSalon.EveryFieldInSchema | src/pages/ListSalon.tsx:25-70 | Every field of the form appears in the schema |
| ListSalon.AcceptsEveryField | src/pages/ListSalon.tsx:25-70 | The form is accepted iff every field passes its rule |
| ListSalon.AcceptsExactly | src/pages/ListSalon.tsx:25-70 | The form is accepted iff the schema's rules, written out field by field, hold |
| ListSalon.MeetsSchemaField | src/pages/ListSalon.tsx:25-70 | A form that meets the written-out rules passes every field |
| ListSalon.FieldsMeetSchema | src/pages/ListSalon.tsx:25-70 | A form that passes every field meets the written-out rules |
| ListSalon.LengthRulesWrittenOut | src/pages/ListSalon.tsx:27-51 | Name, city and state need 2 characters. Address and ZIP code need 5. Phone and description need 10. Only the length is checked |
| ListSalon.FormatRulesWrittenOut | src/pages/ListSalon.tsx:33-37 | The e-mail must pass the e-mail check. The website and map link must be undefined or pass the URL check |
| ListSalon.PresenceRulesWrittenOut | src/pages/ListSalon.tsx:36-42 | Operating hours, service categories, service list and price range must be non-empty |
| ListSalon.PolicyRulesWrittenOut | src/pages/ListSalon.tsx:54-63 | Booking policy, cancellation policy, payment methods and hygiene measures must be non-empty |
| ListSalon.FreeTextIrrelevant | src/pages/ListSalon.tsx:35-69 | The optional free-text fields are never reported, and changing them never changes the verdict |
| ListSalon.Defaults | src/pages/ListSalon.tsx:78-108 | `defaultValues`: every field "". DefaultsRejected and DefaultFieldVerdict state what the schema says of it |
| ListSalon.DefaultsRejected | src/pages/ListSalon.tsx:78-108 | The default form is rejected, with the salon name and description reported. With format checks that refuse "", exactly the fields other than free text are reported |
| ListSalon.DefaultFieldVerdict | src/pages/ListSalon.tsx:78-108 | With format checks that refuse "", a field at its default passes iff it is free text |
| ListSalon.EmptyValueReported | src/pages/ListSalon.tsx:25-70 | A field left at "" is reported when its rule asks for a length, or for a format that refuses "" |
| ListSalon.FilledThroughPage | src/pages/ListSalon.tsx:130-386 | Only the sixteen rendered inputs differ from the defaults. PageFormNeverAccepted states what follows |
| ListSalon.PageFormNeverAccepted | src/pages/ListSalon.tsx:130-386 | A form edited only through the sixteen rendered inputs is always rejected, with description and cancellation policy reported. With a URL check that refuses "", both links are reported too |
| SalonForm.FormStore.constructor | src/components/salon/ServicesSection.tsx:12 | Both lists start unset |
| SalonForm.FormStore.ServicesOrEmpty | src/components/salon/ServicesSection.tsx:12 | `getValues("services") \|\| []`, here and again at line 26. AddService and RemoveService state its contract |
| SalonForm.FormStore.StaffOrEmpty | src/components/salon/StaffSection.tsx:11 | `getValues("staff") \|\| []`, here and again at line 19. AddStaffMember and RemoveStaffMember state its contract |
| SalonForm.FormStore.SetServices | src/components/salon/ServicesSection.tsx:13 | Replaces the services list and leaves the staff list alone |
| SalonForm.FormStore.SetStaff | src/components/salon/StaffSection.tsx:12 | Replaces the staff list and leaves the services list alone |
| ServicesSection.AddService | src/components/salon/ServicesSection.tsx:11-23 | The list (empty when unset) grows by exactly the blank service at the end. Earlier entries and the staff list are unchanged |
| ServicesSection.RemoveService | src/components/salon/ServicesSection.tsx:25-28 | The list (empty when unset) loses exactly entry i when i is in range, and is unchanged otherwise. The staff list is untouched |
| ServicesSection.TrimAddsNothing | src/components/salon/ServicesSection.tsx:123 | Trimming never introduces a character, so a comma-free piece stays comma-free |
| ServicesSection.TrimAll | src/components/salon/ServicesSection.tsx:123 | Each piece is replaced by its trimmed form, and the count is kept |
| ServicesSection.TrimAllSpec | src/components/salon/ServicesSection.tsx:123 | Every trimmed piece is trimmed, and comma-free pieces stay comma-free |
| ServicesSection.NonEmpty | src/components/salon/ServicesSection.tsx:123 | `filter(Boolean)` keeps only non-empty strings of the input |
| ServicesSection.ParseExperts | src/components/salon/ServicesSection.tsx:122-124 | No parsed expert is empty, has white space at either end, or holds a comma |
| ServicesSection.NonEmptyAppend | src/components/salon/ServicesSection.tsx:123 | Filtering two lists in turn gives the filter of their concatenation: the filter keeps the input order |
| ServicesSection.NonEmptySingle | src/components/salon/ServicesSection.tsx:123 | A single string is kept exactly when it is non-empty |
| ServicesSection.TrailingCommaIgnored | src/components/salon/ServicesSection.tsx:122-124 | A comma typed at the end of the text changes no parsed expert |
| ServicesSection.PrintExperts | src/components/salon/ServicesSection.tsx:121 | The text the field shows; its contract is carried by PrintedTextPieces and ExpertsRoundTrip |
| ServicesSection.SplitJoined | src/components/salon/ServicesSection.tsx:121-123 | Splitting the list joined with ", " on commas gives the first name, then each later name behind a space |
| ServicesSection.NonEmptyKeepsAll | src/components/salon/ServicesSection.tsx:123 | A list of non-empty strings passes the filter whole |
| ServicesSection.NonEmptyDropsAll | src/components/salon/ServicesSection.tsx:123 | A list of empty strings filters to nothing |
| ServicesSection.TrimPrintable | src/components/salon/ServicesSection.tsx:123 | A printable name trims to itself, with or without a leading space |
| ServicesSection.PrintedTextPieces | src/components/salon/ServicesSection.tsx:121-123 | Splitting the shown text of comma-free names on commas gives the first name, then each later name behind a space |
| ServicesSection.TrimJoinedPieces | src/components/salon/ServicesSection.tsx:121-123 | Trimming the pieces of a printed list gives the list back |
| ServicesSection.ExpertsRoundTrip | src/components/salon/ServicesSection.tsx:121-123 | Parsing the text the field shows gives the same experts back, when each is non-empty, trimmed and comma-free |
| ServicesSection.SplitOfBlank | src/components/salon/ServicesSection.tsx:123 | Text of commas and white space splits into blank pieces |
| ServicesSection.BlankTextNoExperts | src/components/salon/ServicesSection.tsx:123 | Empty text, or text of only commas and white space, parses to no experts |
| StaffSection.AddStaffMember | src/components/salon/StaffSection.tsx:10-16 | The list (empty when unset) grows by one. Earlier entries are unchanged and the new last entry is the blank member with rating 5. The services list is untouched |
| StaffSection.RemoveStaffMember | src/components/salon/StaffSection.tsx:18-21 | The list (empty when unset) loses exactly entry i when i is in range, and is unchanged otherwise. The services list is untouched |
| StaffSection.AddThenRemoveLast | src/components/salon/StaffSection.tsx:10-21 | Adding a member and then removing the last position restores the list |
| UserMenu.FirstLetters | src/components/UserMenu.tsx:20-21 | No more initials than words |
| UserMenu.FirstLettersAppend | src/components/UserMenu.tsx:20-21 | The initials of two word lists concatenate |
| UserMenu.FirstLettersOfWords | src/components/UserMenu.tsx:20-21 | Non-empty words give one letter each, their first, in order |
| UserMenu.Initials | src/components/UserMenu.tsx:18-22 | No more initials than words, and none is an ASCII small letter |
| UserMenu.InitialsOfWords | src/components/UserMenu.tsx:18-22 | A name of non-empty words joined by single spaces has one initial per word: the word's upper-cased first character, in order |
| UserMenu.DoubleSpaceSameInitials | src/components/UserMenu.tsx:18-22 | A doubled space adds an empty word, which adds no initial |
| UserMenu.Route | src/components/UserMenu.tsx:37-60 | Every entry navigates somewhere except Logout |
| UserMenu.Label | src/components/UserMenu.tsx:37-60 | The text of a menu entry; its contract is carried by MenuEntriesDistinct |
| UserMenu.Menu | src/components/UserMenu.tsx:16-60 | There is no menu iff there is no user. Otherwise there are four entries with Logout last. The first three are the salon pages iff the role is salon owner, and the customer pages otherwise |
| UserMenu.MenuEntriesDistinct | src/components/UserMenu.tsx:35-60 | A menu's entries, and their labels, are distinct |
| UserMenu.MenuAfterActions | src/components/UserMenu.tsx:16-60 | After logout there is no menu. After login or signup there is one, and it starts with Dashboard iff the role is salon owner |
| ProfilePage.AvatarInitials | src/pages/Profile.tsx:73-77 | Never empty. It is the full name's initials when those are non-empty, else the upper-cased first character of the user's name, else "U" |
| ProfilePage.FullNameInitials | src/pages/Profile.tsx:73-76 | The initials of the stored full name; its contract is carried by InitialsFromFullName |
| ProfilePage.InitialsFromFullName | src/pages/Profile.tsx:73-77 | A stored full name of single-space-separated words gives one initial per word |
| ProfilePage.MockLoginInitials | src/pages/Profile.tsx:77 | With no profile, a mock-login user's avatar shows "S" for a salon owner and "J" otherwise |
| ProfilePage.DisplayName | src/pages/Profile.tsx:138 | The stored full name when non-empty, otherwise the user's name, otherwise nothing |
| ProfilePage.DisplayEmail | src/pages/Profile.tsx:148 | The stored e-mail when non-empty, otherwise the user's e-mail, otherwise nothing |
| ProfilePage.ShownPhone | src/pages/Profile.tsx:151-156 | The phone row appears iff the stored number is non-empty, and shows that number |
| ProfilePage.AvatarSource | src/pages/Profile.tsx:89 | The stored avatar address when non-empty, otherwise the user's avatar |
| ProfilePage.DisplayNameAfterRename | src/pages/Profile.tsx:138 | After a rename to a non-empty name, the page shows that name |
| ProfilePage.AvatarAfterUpload | src/pages/Profile.tsx:89 | After an avatar upload with a non-empty address, the page shows that address |
| ProfilePage.NameEditor.constructor | src/pages/Profile.tsx:14 | The editor starts closed |
| ProfilePage.NameEditor.Edit | src/pages/Profile.tsx:139 | Opens the editor and keeps the typed text |
| ProfilePage.NameEditor.Cancel | src/pages/Profile.tsx:132 | Closes the editor and keeps the typed text |
| ProfilePage.NameEditor.Type | src/pages/Profile.tsx:126-130 | Replaces the typed text and keeps the editor open or closed |
| ProfilePage.NameEditor.HandleNameUpdate | src/pages/Profile.tsx:46-68 | A rename is sent iff the trimmed name is non-empty, and it carries the trimmed name. The editor closes only when the rename succeeds, and nothing changes otherwise |
| ProfileData.FileExtension | src/hooks/useProfileData.ts:57 | The extension holds no '.' and is a suffix of the name. It follows the last '.' when there is one, and is the whole name otherwise |
| ProfileData.ExtensionOfDottedName | src/hooks/useProfileData.ts:57 | The extension of `base.ext` is `ext` whenever `ext` has no '.' |
| ProfileData.AvatarPath | src/hooks/useProfileData.ts:58 | The path starts with the user id (or "undefined") and "/", and ends with "." and the extension |
| ProfileData.AvatarPathFolder | src/hooks/useProfileData.ts:58 | The path's first folder is the user's id |
| ProfileData.AvatarPathExtension | src/hooks/useProfileData.ts:57-58 | The stored object keeps the uploaded file's extension |
| ProfileData.IdText | src/hooks/useProfileData.ts:58 | The user id as the template literal prints it, "undefined" when absent; its contract is carried by AvatarPathFolder |
| ProfileData.WithFullName | src/hooks/useProfileData.ts:42-45 | The rename on the table; its contract is carried by WithFullNameOnlyName |
| ProfileData.WithAvatarUrl | src/hooks/useProfileData.ts:72-75 | The avatar update on the table; its contract is carried by WithAvatarUrlOnlyAvatar |
| ProfileData.WithFullNameOnlyName | src/hooks/useProfileData.ts:42-45 | A rename touches only the signed-in user's row, and in it only the full name |
| ProfileData.WithAvatarUrlOnlyAvatar | src/hooks/useProfileData.ts:72-75 | Setting the avatar touches only the signed-in user's row, and in it only the avatar address |
| ProfileData.ProfileStore.constructor | src/hooks/useProfileData.ts:17-21 | The backend starts with the given profile rows and an empty avatar storage |
| ProfileData.ProfileStore.UpdateName | src/hooks/useProfileData.ts:40-48 | On a backend error it fails with that error and changes nothing. Otherwise it renames the row. Storage is untouched |
| ProfileData.ProfileStore.UploadAvatar | src/hooks/useProfileData.ts:54-80 | A failed upload changes nothing. A successful one stores the object at the avatar path. The row changes only if the update also succeeds, and then it holds the object's public address, which is returned |
| FeaturedSalons.DefaultSalons | src/components/FeaturedSalons.tsx:21-55 | There are three default salons |
| FeaturedSalons.DefaultSalonsComplete | src/components/FeaturedSalons.tsx:21-55 | Each default salon has a distinct id, the load time as both timestamps, an image, a rating above 4.5, and three services |
| FeaturedSalons.FetchFeatured | src/components/FeaturedSalons.tsx:57-77 | An error, or missing or empty data, gives the defaults; any other answer is returned unchanged |
| FeaturedSalons.FetchNeverEmpty | src/components/FeaturedSalons.tsx:57-77 | The fetch yields between one and six salons |
| FeaturedSalons.CardOf | src/components/FeaturedSalons.tsx:119-128 | The card copies id, name and location. The image falls back to the fixed address when empty, the rating to 4.5 when null or 0, and the services to [] when null |
| FeaturedSalons.Render | src/components/FeaturedSalons.tsx:101-131 | Skeletons iff loading. The alert iff loaded with no rows. Otherwise one card per row, in order |
| FeaturedSalons.LoadedStripShowsCards | src/components/FeaturedSalons.tsx:57-131 | Once the fetch answers, the strip shows cards, each with an image and a non-zero rating |
| FeaturedSalons.DefaultCardsKeepTheirValues | src/components/FeaturedSalons.tsx:124-125 | The default salons render with their own images and ratings |
| SalonInfo.RemoveWhitespaceKeeps | src/components/salon/SalonInfo.tsx:48 | White-space removal keeps only characters of its input |
| SalonInfo.LocalPart | src/components/salon/SalonInfo.tsx:48 | The name lower-cased with its white space removed; its contract is carried by SameAddressIffSameLocalPart and PlainNameAddress |
| SalonInfo.LocalPartClean | src/components/salon/SalonInfo.tsx:48 | The local part holds no white space and no ASCII capital |
| SalonInfo.ContactEmail | src/components/salon/SalonInfo.tsx:48 | The address starts with "contact@" and ends with ".com". Between them is the name's local part, with no white space and no ASCII capital |
| SalonInfo.SameAddressIffSameLocalPart | src/components/salon/SalonInfo.tsx:48 | Two names share an address iff their local parts agree |
| SalonInfo.LowerWhitespaceRemoved | src/components/salon/SalonInfo.tsx:48 | A white-space run vanishes from the local part |
| SalonInfo.WhitespaceInsensitive | src/components/salon/SalonInfo.tsx:48 | Inserting white space anywhere in the name gives the same address |
| SalonInfo.CaseInsensitive | src/components/salon/SalonInfo.tsx:48 | Upper- or lower-casing the name gives the same address |
| SalonInfo.PlainNameAddress | src/components/salon/SalonInfo.tsx:48 | A name already in lower case with no white space is used verbatim: the address is "contact@", the name, ".com" |

## Left out

- Network and backend calls are not modelled; their outcomes enter as inputs. This covers the featured-salons query, the profile query, `update`, storage `upload`, `getPublicUrl` (a function parameter) and the authentication service's sign-in, sign-up and sign-out calls.
- `src/services/profileService.ts` is not part of this model. It is backend plumbing with a one-second sleep.
- Asynchrony: each mutation is modelled as one synchronous step. React rendering, toasts, navigation, query caching and effect scheduling are left out.
- `crypto.randomUUID()` is the `uuid` parameter, and `new Date().toISOString()` is the `now` parameter.
- FeaturedSalons.DefaultSalons: all six timestamps are one `now`, though the source evaluates `new Date()` once per field.
- SalonsPage.LexLess: `localeCompare` is replaced by code-point lexicographic order, because locale collation rules are not part of this code.
- SalonsPage.Before: the Haversine distance and the geolocation call are left out. The distance is a function parameter, and only its comparisons are modelled.
- The distance comparator returns 0 when only one of two salons has coordinates, which is not a consistent comparator. So SalonsPage.SortSorted asks for salons the comparator can rank. Every mock salon has coordinates.
- SalonsPage.Sort: JavaScript's stable sort is modelled as an insertion sort on values. The source sorts a fresh copy, so nothing is aliased and the mock list is never reordered.
- JsStrings.Lower and JsStrings.Upper map only the ASCII letters; full Unicode case mapping is left out.
- String lengths count characters, not UTF-16 code units, so a zod `min(n)` on text outside the Basic Multilingual Plane is not modelled exactly.
- UserMenu.Initials: takes each word's whole first character, where the source's `n[0]` takes one UTF-16 code unit; a word starting outside the Basic Multilingual Plane gives a lone surrogate there.
- ProfilePage.AvatarInitials: takes the whole first character of the user's name, where the source's `user?.name?.[0]` takes one UTF-16 code unit; the same lone-surrogate case is not modelled.
- ListSalon.Formats: zod's `email()` and `url()` checks are parameters. Facts about the defaults assume only that both refuse "".
- FeaturedSalons.FetchNeverEmpty: the query's `limit(6)` is taken as a fact about the backend's answer, stated as a precondition.
- Floating-point details: ratings are reals, and NaN is not modelled.
- AuthService.MapProfileToUser: determinism is not stated separately, because a Dafny function always gives equal results for equal inputs.
- The profile hook's seeding of `newName` from the loaded profile (src/hooks/useProfileData.ts:34) is not modelled. `ProfilePage.NameEditor` holds the typed text itself.
- The salon-admin guard's redirect is not modelled; only its condition is (`AuthContext.MayOpenSalonAdmin`).
- The status colour choice in the bookings page and every presentational component are outside this model.
