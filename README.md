# Tournament slot store and wallet ledger

This project models the core of a tournament-booking web app for two mobile games, Free Fire and BGMI. It covers:

- the **tournament store** (`TournamentContext`), which holds the tournaments; each tournament has a fixed table of numbered slots;
- **tournament creation**, which gives a new tournament N free slots numbered 1..N;
- **`joinTournament`**, a cascade of guards that, when all pass, writes the player into the chosen slot in place and debits the entry fee;
- the **wallet update** of the authentication context (`updateWallet`), through which every credit and debit goes.

Around that core it models the pure pieces the pages compute:

- the admin form's schema and its mapping onto `addTournament`;
- the tournament page's registration lookup, slot-click guard, join dialog and confirm button;
- the wallet page's deposit, which reads the amount with JavaScript's `parseInt`, and its statistics over the transaction history;
- the per-game list's game normalisation and its split into status tabs;
- the dashboard's game counts and its "first three upcoming" preview;
- the header's avatar initials.

The modules follow the source files.

| module | file | form |
|---|---|---|
| `Common` | shared | `Option`, `Result`, `filter` and `findIndex` |
| `Auth` | `AuthContext.tsx` | the user record, and the `Session` class with its `user` field |
| `Tournaments` | `TournamentContext.tsx` | `Snapshot` values for specifications; the `Tournament` class owns an `array<Slot>` that a join writes in place; the `TournamentStore` class owns the list |
| `Admin` | `Admin.tsx` | the schema, as functions |
| `TournamentDetail` | `TournamentDetail.tsx` | guards as functions; the `JoinDialog` class holds the dialog state |
| `NumberParsing` | `parseInt`/`String` | functions and lemmas |
| `Wallet` | `Wallet.tsx` | statistics as functions; the `DepositForm` class holds the form state |
| `TournamentList`, `Dashboard`, `Header` | the pages | functions and lemmas |

The join is specified in three layers:
- **Guards.** `DecideJoin` is the guard cascade as a function.
- **Effect.** `TournamentsAfter` and `UserAfter` give the state after an outcome.
- **Method.** `TournamentStore.JoinTournament` performs the join on the arrays and the session. Its contract ties the new state to those functions of the old state.

The lemmas prove the following about those functions:
- No double booking.
- One slot per player per tournament.
- Only the chosen slot changes.
- The wallet moves by exactly the fee.
- A wallet that was not negative stays not negative.
- The guard order.

### What the code does not do

- **No status check in the join.** `joinTournament` never looks at a tournament's status; only the slot grid's click handler does. `Tournaments.JoinIgnoresStatus` proves that status plays no part in the join.
- **No compensation step.** The balance is checked *before* the already-registered check and before any write. A refused join therefore has nothing to undo. A player who is already registered but short of money is told "Insufficient balance".
- **No bound on the wallet.** `updateWallet` adds whatever it is given. Non-negativity after a join follows only from the join's own balance guard.
- **One caller at a time.** The state lives in memory and is driven by one caller at a time, and the model is sequential.

Two JavaScript details are kept as the code has them:
- The "taken" test is truthiness (`if (slot.playerId)`), so a player id of `""` reads as free.
- The registration test is strict equality (`slot.playerId === user.id`).

The no-double-booking lemmas therefore assume a non-empty user id.

## Model

| member | source | states |
|---|---|---|
| Auth.IsAdmin | src/contexts/AuthContext.tsx:293 | the admin flag is true exactly when a user is signed in and that user's flag is set; false when nobody is signed in; its partners are the three lemmas below |
| Auth.NewAccountsAreNotAdmin | src/contexts/AuthContext.tsx:88-94 | a new account and the unconfirmed-address fallback user are never admin |
| Auth.SignInAdminExactly | src/contexts/AuthContext.tsx:114-120 | a signed-in user is admin exactly when the admin address was typed |
| Auth.CreditKeepsAdmin | src/contexts/AuthContext.tsx:273-280 | a wallet update never changes whether the session is admin |
| Auth.LocalPart | src/contexts/AuthContext.tsx:90 | `split('@')[0]` is a prefix of the address with no '@' in it, ending at the first '@' if there is one |
| Auth.DerivedUsername | src/contexts/AuthContext.tsx:116 | the username is never empty and has no '@'; it is exactly the local part of the address when that is non-empty, and exactly "user" when the address is missing or its local part is empty |
| Auth.UnconfirmedUser | src/contexts/AuthContext.tsx:88-94 | the unconfirmed-address fallback user keeps the id and the address, has exactly the raw local part as username, is not admin, and starts with wallet 100 |
| Auth.SignedInUser | src/contexts/AuthContext.tsx:114-120 | a signed-in user keeps the id; starts with wallet 100; is admin exactly when the admin address was typed; has exactly the derived username, which is non-empty and has no '@'; and has the address, or "" when it is missing |
| Auth.SignedUpUser | src/contexts/AuthContext.tsx:195-201 | a new account keeps the chosen id, username and address, is never admin, and starts with wallet 100 |
| Auth.Credited | src/contexts/AuthContext.tsx:273-280 | nobody signed in stays nobody; otherwise the wallet becomes wallet + amount, and id, username, email and admin flag stay the same |
| Auth.CreditRoundTrip | src/contexts/AuthContext.tsx:273-280 | a credit followed by the opposite debit restores the user exactly |
| Auth.CreditsCompose | src/contexts/AuthContext.tsx:273-280 | two wallet updates equal one update by their sum |
| Auth.Session.constructor | src/contexts/AuthContext.tsx:46-56 | the session starts with the user restored from storage, or with nobody |
| Auth.Session.SignIn | src/contexts/AuthContext.tsx:122 | after sign-in the session holds exactly the installed user |
| Auth.Session.SignOut | src/contexts/AuthContext.tsx:231 | after sign-out nobody is signed in |
| Auth.Session.UpdateWallet | src/contexts/AuthContext.tsx:273-280 | the new user is `Credited(old user, amount)`; with nobody signed in nothing changes |
| Tournaments.FindTournament | src/contexts/TournamentContext.tsx:140 | `findIndex` on the id: the index found has that id and no earlier one does; none exactly when no tournament has it |
| Tournaments.FindSlot | src/contexts/TournamentContext.tsx:151 | `findIndex` on the slot number: the slot found has that number; none exactly when no slot has it |
| Tournaments.FindSlotNumbered | src/contexts/TournamentContext.tsx:114-120 | in a table numbered from 1, slot n exists exactly for 1 <= n <= N, at index n - 1 |
| Tournaments.DecideJoin | src/contexts/TournamentContext.tsx:130-190 | refusal for no user exactly when nobody is signed in; "not found" exactly when no tournament has the id; a success names the first tournament with the id and a slot with that number that is free, whose fee the wallet covers, and in which the player holds no slot |
| Tournaments.SlotGuards | src/contexts/TournamentContext.tsx:150-190 | the guards after the tournament is found never report "no user" or "not found"; a success names that tournament and the slot `findIndex` gives |
| Tournaments.JoinGuardOrder | src/contexts/TournamentContext.tsx:151-190 | gives, for each outcome, the exact condition: an unknown number is an invalid slot; a taken slot is reported before the balance is checked; a short balance is reported before an earlier registration; success exactly when the slot is free, the fee is covered and the player holds no slot |
| Tournaments.ClaimSlot | src/contexts/TournamentContext.tsx:193-199 | the slot write keeps the slot's number and sets player id, name and game id; every other slot, the id and the data stay the same |
| Tournaments.ClaimKeepsWellFormed | src/contexts/TournamentContext.tsx:182-199 | writing a player who holds no slot keeps the table sized and numbered, with no player in two slots |
| Tournaments.JoinFailureChangesNothing | src/contexts/TournamentContext.tsx:131-190 | every refusal leaves the tournaments and the wallet exactly as they were |
| Tournaments.JoinSuccessEffect | src/contexts/TournamentContext.tsx:192-211 | on success only the chosen slot changes, to (user id, name, game id); every other slot and tournament stays the same; the wallet drops by exactly the fee; a wallet that was not negative stays not negative |
| Tournaments.JoinPreservesWellFormed | src/contexts/TournamentContext.tsx:181-199 | after any join attempt every tournament is still well formed, so a player holds at most one slot per tournament |
| Tournaments.JoinTakesOneFreeSlot | src/contexts/TournamentContext.tsx:218-222 | a success takes exactly one slot out of that tournament's available list |
| Tournaments.JoinFillsOneSlot | src/contexts/TournamentContext.tsx:193-201 | a success raises that tournament's filled count by exactly one |
| Tournaments.JoinedSlotIsTaken | src/contexts/TournamentContext.tsx:162-169 | no double booking: after a success, any signed-in user asking for that slot is refused as "taken" |
| Tournaments.RejoinRefused | src/contexts/TournamentContext.tsx:181-190 | after a success the same player can never join that tournament again; when the slot exists, is free and the balance covers the fee, the refusal is "already registered" |
| Tournaments.JoinIgnoresStatus | src/contexts/TournamentContext.tsx:130-190 | changing a tournament's status never changes the outcome of a join |
| Tournaments.SameGuards | src/contexts/TournamentContext.tsx:140-190 | the outcome depends only on the ids, the slot tables and the entry fees |
| Tournaments.TournamentsByGame | src/contexts/TournamentContext.tsx:214-216 | `getTournamentsByGame` keeps exactly the tournaments of the game |
| Tournaments.TournamentsByGameKeepsOrder | src/contexts/TournamentContext.tsx:214-216 | the game's list is a subsequence of the store, in store order |
| Tournaments.AvailableSlots | src/contexts/TournamentContext.tsx:218-222 | an unknown id gives []; otherwise the list holds exactly the free slots of the first tournament with that id, in table order (a subsequence of the table) |
| Tournaments.FilledCount | src/pages/Admin.tsx:310 | the filled count is at most the table size, and 0 exactly when every slot is free |
| Tournaments.FilledPlusAvailable | src/pages/Admin.tsx:310 | the filled count shown plus the number of free slots is the table size |
| Tournaments.FreshSlots | src/contexts/TournamentContext.tsx:114-120 | a new table has max(N, 0) slots, slot k numbered k + 1, each with no player id, name or game id |
| Tournaments.FreshSlotsAllFree | src/contexts/TournamentContext.tsx:114-120 | a new table has max(N, 0) slots, numbered 1..N, all free, with a filled count of 0 |
| Tournaments.AddThenAvailable | src/contexts/TournamentContext.tsx:110-123 | after adding a tournament under an unused id, its available slots are all N fresh slots |
| Tournaments.Tournament.constructor | src/contexts/TournamentContext.tsx:111-121 | the new tournament keeps the given id and data and owns a fresh slot array holding the fresh table |
| Tournaments.TournamentStore.constructor | src/contexts/TournamentContext.tsx:86 | the store starts empty and valid |
| Tournaments.TournamentStore.AddTournament | src/contexts/TournamentContext.tsx:110-123 | the contents become the old contents with one fresh tournament appended; validity is kept |
| Tournaments.TournamentStore.JoinTournament | src/contexts/TournamentContext.tsx:130-212 | the outcome is `DecideJoin` of the old state; the result is true exactly on success; the new slots and user are `TournamentsAfter` and `UserAfter` of that outcome; the list itself and validity are kept |
| Tournaments.TournamentStore.CheckJoin | src/contexts/TournamentContext.tsx:131-190 | the early returns of the guards compute exactly `DecideJoin` of the current contents |
| Tournaments.TournamentStore.Claim | src/contexts/TournamentContext.tsx:192-204 | the in-place slot write and the `updateWallet(-fee)` call together give `TournamentsAfter` and `UserAfter` of the outcome; validity is kept |
| Admin.ParseGameType | src/pages/Admin.tsx:47 | the enum accepts exactly "freefire" and "bgmi", mapping each to its game |
| Admin.SchemaIssues | src/pages/Admin.tsx:45-53 | a field is reported exactly when its check fails: name shorter than 3; game not in the enum; prize not positive; fee negative; slots outside 2..100; empty date or time |
| Admin.Submit | src/pages/Admin.tsx:94-105 | a form is accepted exactly when every check passes; an accepted form passes every field through with status upcoming; a rejected one lists its failures |
| Admin.AcceptedFormMakesOpenTournament | src/pages/Admin.tsx:50 | an accepted form yields 2..100 slots, numbered from 1, all free, with a filled count of 0 |
| Admin.FreeTournamentAccepted | src/pages/Admin.tsx:49 | an entry fee of 0 is accepted |
| TournamentDetail.UserSlot | src/pages/TournamentDetail.tsx:47 | none when logged out; otherwise a slot is found exactly when the player holds one, and it is a slot of the table carrying the user's id |
| TournamentDetail.JoinThenUserSlot | src/pages/TournamentDetail.tsx:47 | after a successful join the page finds the player in the slot just booked, with the name and game id entered |
| TournamentDetail.SlotClick | src/pages/TournamentDetail.tsx:307 | a click opens the dialog on that slot number exactly when a user is signed in, the slot is free and the tournament is upcoming; a visitor is sent to log in; otherwise nothing happens |
| TournamentDetail.OffersAddMoney | src/pages/TournamentDetail.tsx:201-217 | in the panel shown to a player who holds no slot of an upcoming tournament (lines 176 and 193), "Add Money" is offered exactly when a user is signed in and the wallet is below the fee; its partner is `AddMoneyExactlyWhenShort` |
| TournamentDetail.AddMoneyExactlyWhenShort | src/pages/TournamentDetail.tsx:201-217 | for an existing free slot, "Add Money" is offered exactly when the store's join would refuse for insufficient balance |
| TournamentDetail.MissingInfo | src/pages/TournamentDetail.tsx:68 | the handler goes on exactly when a slot other than 0 is selected and the name and game id are non-empty |
| TournamentDetail.ConfirmDisabled | src/pages/TournamentDetail.tsx:383 | the button is disabled exactly when a join is in flight, the name or game id is empty, or the wallet is below the fee; what an enabled button means is stated by `EnabledConfirmCoversFee` and `EnabledConfirmPassesHandlerGuard` |
| TournamentDetail.EnabledConfirmCoversFee | src/pages/TournamentDetail.tsx:383 | an enabled confirm button never leads to the store's insufficient-balance refusal |
| TournamentDetail.EnabledConfirmPassesHandlerGuard | src/pages/TournamentDetail.tsx:67-68 | with the button enabled no join is in flight, and the handler's missing-information guard fails only for want of a selected slot |
| TournamentDetail.JoinDialog.constructor | src/pages/TournamentDetail.tsx:20-24 | the dialog starts closed and empty, with no join in flight |
| TournamentDetail.JoinDialog.ClickSlot | src/pages/TournamentDetail.tsx:50-64 | a click that opens the dialog selects the slot number and opens the dialog; any other click changes nothing |
| TournamentDetail.JoinDialog.EnterDetails | src/pages/TournamentDetail.tsx:340-354 | the inputs set the name and game id and nothing else |
| TournamentDetail.JoinDialog.Settle | src/pages/TournamentDetail.tsx:82-92 | a success closes and clears the dialog; a failure keeps its fields; the in-flight flag drops either way |
| TournamentDetail.JoinDialog.HandleJoinConfirm | src/pages/TournamentDetail.tsx:67-93 | the store is called exactly when slot, name and game id are all present (slot 0 counts as missing); a call has exactly the effect of `joinTournament`; a success clears the dialog, a failure leaves it for another try |
| NumberParsing.ParseInt | src/pages/Wallet.tsx:56 | a number comes only from text whose first character after the white space and one optional sign is a decimal digit; a negative number only from text whose first non-space character is '-' |
| NumberParsing.TrimStart | src/pages/Wallet.tsx:56 | `parseInt` skips exactly the leading white space and line terminators |
| NumberParsing.Natural | src/pages/Wallet.tsx:135 | `String(n)` of a natural number is a non-empty digit string with no leading zero |
| NumberParsing.Decimal | src/pages/Wallet.tsx:135 | `String(n)` starts with '-' exactly for negative n |
| NumberParsing.ValueOfNatural | src/pages/Wallet.tsx:135 | the digits of `String(n)` read back as n |
| NumberParsing.ParseIntOfDecimal | src/pages/Wallet.tsx:56 | `parseInt(String(n) + rest)` is n for any n when `rest` cannot extend the numeral |
| NumberParsing.ParseIntOfDigits | src/pages/Wallet.tsx:56 | any non-empty run of decimal digits, leading zeros included ("007" reads as 7), followed by something that cannot extend it, reads as its value |
| NumberParsing.ParseIntSkipsWhitespace | src/pages/Wallet.tsx:56 | leading white space does not change the result of `parseInt` |
| NumberParsing.ParseIntDropsFraction | src/pages/Wallet.tsx:56 | `parseInt` drops a fractional part: "12.75" reads as 12 |
| NumberParsing.NoLeadingDigitIsNaN | src/pages/Wallet.tsx:56 | text with no digit after the white space and one sign is NaN |
| NumberParsing.HexadecimalPrefix | src/pages/Wallet.tsx:56 | for any non-empty run of hexadecimal digits not followed by another one, "0x" or "0X" and the run read as the run's value in base 16 |
| NumberParsing.BarePrefixIsNaN | src/pages/Wallet.tsx:56 | "0x" or "0X" followed by anything that does not start with a hexadecimal digit is NaN |
| Wallet.TotalDeposits | src/pages/Wallet.tsx:245-248 | the total deposited is not negative when no deposit is, and 0 when there is no deposit; its value on any history follows from these with `RecordDeposit` and `RecordEntry`, and on the page's fixed history (the only one the page evaluates) `MockStats` gives it |
| Wallet.TotalSpent | src/pages/Wallet.tsx:254-257 | when entries only take money out, the total spent is exactly what they took out together; 0 when there is no entry; the contract stops at non-positive entries because the page evaluates it only on its fixed history, where every entry is negative and `MockStats` gives the value |
| Wallet.TournamentsJoined | src/pages/Wallet.tsx:263 | the joined count is at most the history's length, 0 exactly when there is no entry, and in a history of deposits and entries it is the history's length minus the number of deposits |
| Wallet.LedgerNet | src/pages/Wallet.tsx:245-257 | for a history of deposits and non-positive entries, the net amount is total deposits minus total spent |
| Wallet.RecordDeposit | src/pages/Wallet.tsx:245-263 | one more deposit raises total deposits by its amount and leaves total spent and the joined count alone |
| Wallet.RecordEntry | src/pages/Wallet.tsx:245-263 | one more entry adds 1 to the joined count and leaves deposits alone; when entries are non-positive it raises total spent by its magnitude |
| Wallet.MockStats | src/pages/Wallet.tsx:14-45 | a sanity example on the page's fixed mock history: it shows 700 deposited, 150 spent and 2 tournaments joined |
| Wallet.AmountLabel | src/pages/Wallet.tsx:209 | the label starts with '+' exactly when the amount is positive; then comes the rupee sign and `String` of the magnitude, which `parseInt` reads back as the magnitude |
| Wallet.AmountLabelInjective | src/pages/Wallet.tsx:209 | two amounts with the same label are equal, so the label shows the magnitude without loss |
| Wallet.DepositAmount | src/pages/Wallet.tsx:56-58 | a deposit is accepted exactly when `parseInt` gives a number above 0, and the deposit is that number |
| Wallet.DepositOfNumeral | src/pages/Wallet.tsx:56-58 | a numeral, with or without leading white space or a fractional part, deposits exactly its whole value when positive; zero and negatives are refused |
| Wallet.PresetDeposits | src/pages/Wallet.tsx:131-135 | each preset button fills in a text that deposits exactly its amount |
| Wallet.DepositForm.constructor | src/pages/Wallet.tsx:51-52 | the form starts with an empty amount and nothing in progress |
| Wallet.DepositForm.Enter | src/pages/Wallet.tsx:118 | typing sets the amount text and nothing else |
| Wallet.DepositForm.ChoosePreset | src/pages/Wallet.tsx:135 | a preset sets the amount to `String(value)`, which deposits exactly that value |
| Wallet.DepositForm.HandleDeposit | src/pages/Wallet.tsx:55-81 | a deposit is accepted exactly when the text parses to a number above 0; an accepted one credits exactly that number and clears the form; a refused one changes nothing |
| TournamentList.ValidGameType | src/pages/TournamentList.tsx:20-22 | "bgmi" gives BGMI and "freefire" gives Free Fire; anything else, a missing parameter included, gives Free Fire |
| TournamentList.ListTabs | src/pages/TournamentList.tsx:25-28 | each tab lists only tournaments of the store of the normalised game with that tab's status |
| TournamentList.TabsDisjoint | src/pages/TournamentList.tsx:26-28 | no tournament appears in two tabs |
| TournamentList.TabsCoverGame | src/pages/TournamentList.tsx:25-28 | every tournament of the game appears in some tab |
| TournamentList.TabCountsAddUp | src/pages/TournamentList.tsx:56-62 | the three tab counts add up to the number of the game's tournaments |
| TournamentList.ListTabsKeepOrder | src/pages/TournamentList.tsx:26-28 | each tab keeps the order of the game's list |
| Dashboard.CountsByGame | src/pages/Dashboard.tsx:18-19 | each card's count is the length of that game's `getTournamentsByGame` list, and the two counts add up to the number of tournaments |
| Dashboard.GamesSplit | src/pages/Dashboard.tsx:18-19 | every tournament is counted on exactly one game's card |
| Dashboard.UpcomingPreview | src/pages/Dashboard.tsx:104-106 | the preview holds at most 3 tournaments, all upcoming, and is the first min(3, m) of the upcoming list |
| Dashboard.UpcomingOfBoth | src/pages/Dashboard.tsx:104-105 | filtering the concatenation gives the upcoming Free Fire tournaments followed by the upcoming BGMI ones |
| Dashboard.PreviewFreeFireFirst | src/pages/Dashboard.tsx:104-106 | no BGMI card comes before a Free Fire card |
| Dashboard.PreviewPrefersFreeFire | src/pages/Dashboard.tsx:104-106 | with three or more upcoming Free Fire tournaments the preview shows only the first three of them |
| Header.SplitOnSpace | src/components/Header.tsx:38 | the pieces number one more than the spaces, and none contains a space |
| Header.SplitJoinRoundTrip | src/components/Header.tsx:38 | joining the pieces with spaces gives back the name |
| Header.UpperAscii | src/components/Header.tsx:41 | a lower-case ASCII letter becomes its upper-case letter (code point minus 32); the result is never a lower-case letter, and other characters are unchanged |
| Header.ToUpper | src/components/Header.tsx:41 | `toUpperCase` keeps the length, maps each character by `UpperAscii`, and leaves no lower-case letter |
| Header.ToUpperAppend | src/components/Header.tsx:41 | upper-casing a concatenation is the concatenation of the upper-cased parts |
| Header.Initials | src/components/Header.tsx:36-42 | the initials number at most the spaces plus one and contain no lower-case letter |
| Header.InitialsOfPhrase | src/components/Header.tsx:37-41 | the initials of two parts joined by a space are the initials of each in order, so an empty part contributes nothing |
| Header.InitialsOfWord | src/components/Header.tsx:37-41 | "" has empty initials; a word without spaces gives its upper-cased first character |

## Left out

- Sign-in, sign-up, sign-out, password reset and the administrator login: these call a hosted identity service and handle credentials. The records that sign-in, sign-up and sign-out install are modelled; the administrator login's fixed record (src/contexts/AuthContext.tsx:147-153) is not, and neither is password reset.
- Persistence of the user and the tournaments in local storage, and JSON parsing of them: I/O. A restored session is a constructor argument.
- The initial mock tournaments (src/contexts/TournamentContext.tsx:46-83), which become the store's contents when storage holds none (lines 98 and 101): the model's store starts empty instead. Each of them is a tournament with a fresh table, which is what `AddTournament` builds, so adding them in turn reaches the same contents.
- Toasts, navigation, redirect guards, JSX rendering, tab labels and React effects: presentation only.
- The 1.5 s payment delay of the deposit: a deposit takes effect immediately.
- Percentage fill bars: floating-point division.
- Tournament and slot ids made from `Date.now()`: tournament ids are parameters, and nothing assumes they are unique; `FindTournament` returns the first match, as `findIndex` does. The slot `id` field is not modelled.
- Concurrency and React's batching of state updates: the model is sequential. In particular it does not capture a stale `user` captured by the deposit's delayed callback.
- Transaction status and timestamp fields, and the `Date` formatting of the history: display only.
- The deposit button's `disabled` state and the "Add Money" scroll button: presentation only.
- Tournaments.TournamentStore.JoinTournament: amounts are unbounded integers. The JavaScript code uses double-precision numbers, and the admin schema's `z.coerce.number()` admits fractional prizes and fees; neither is modelled.
- Admin.Submit: the form values are whole numbers already coerced. Coercion of text to a number, `NaN` and fractional slot counts are not modelled.
- Admin.SchemaIssues: the name's `.min(3)` and the date's and time's `.min(1)` count UTF-16 code units, while the model counts characters. A name of two characters outside the Basic Multilingual Plane (two emoji) is four code units and passes the schema, but the model rejects it.
- NumberParsing.ParseIntOfDecimal: covers whole numbers only. `String(n)` switches to exponent notation at 1e21, and `parseInt` loses precision beyond 2^53; neither is modelled.
- Header.ToUpper: ASCII letters only. Unicode case mapping, and strings as UTF-16 code units, are not modelled.
- Login.tsx, Contact.tsx, App.tsx and WelcomeNotification.tsx are not part of this model. They hold e-mail regexes from a library, static content, routing and a timer.
