# OddScout core, modelled in Dafny

OddScout compares the 1X2 football odds of the Betby bookmaker with those of the
sharp Pinnacle book and reports *value bets*: Betby prices whose expected value,
measured against Pinnacle's implied probabilities, is at least one per cent. It
also keeps a small wallet for each user. Users deposit money, place stakes on an
outcome and settle them, and they read statistics and dashboard cards about their
bets.

The model covers that core:

- **Odds arithmetic.** It covers the goto-conversion of bookmaker odds into
  probabilities that sum to one, and the parsing of Betby's odd digits and event
  cards.
- **The value-bet engine.** It pairs Betby events with Pinnacle events by kickoff
  minute and a token-set similarity of the team names, then selects the outcome
  with the largest expected value.
- **The domain entities.** `Odd`, `Event`, `Bet`, `Transaction` and `User` are
  classes whose methods update their fields. Each method is proved against its
  validations and keeps the entity's invariant.
- **The command handlers.** `PlaceBet`, `SettleBet` and `DepositBalance` run over a
  store of those entities. Each handler is proved to give the error its guards give,
  in source order. On success it makes exactly the balance and ledger change the
  source makes, and on failure it changes nothing.
- **The read side.** It covers the bet statistics, the dashboard metrics and the
  response envelopes `ApiResponse`, `ApiResponseList` and `EnhancedPagedResult`.

## Representations

- `decimal` and `double` values are modelled as `real`, a `Guid` as an `int`, and a
  `DateTime` as an `int` count of 100 ns ticks in UTC.
- A thrown exception becomes a `Fail`/`Failure` value and `null` becomes `None`.
- Library and environment calls are parameters of the operations that use them:
  - `Guid.NewGuid()` becomes an `id` argument;
  - `DateTime.UtcNow` becomes a `now` argument;
  - `Math.Sqrt` becomes `sqrt`;
  - Unicode NFKD decomposition becomes `nfkd`;
  - `MailAddress` parsing becomes `isValidEmail`;
  - the Brazil time-zone conversion becomes `resolve`;
  - "the event is on today's date" becomes `isEndingToday`.
- The EF Core context becomes the `LedgerStore.Store` class:
  - users, events and bets are maps by identifier;
  - transactions are a sequence in the order they were added.

## Model

| member | source | states |
|---|---|---|
| GotoConversion.FirstInvalidOdd | Infrastructure/Services/GotoConversionService.cs:188-195 | passes exactly when every odd from index i on is in (1, 1000]; a failure names an odd at or below 1 or above 1000 |
| GotoConversion.Validation | Infrastructure/Services/GotoConversionService.cs:180-196 | a null array, fewer than two odds, or an odd outside (1, 1000] is rejected with that error; anything else passes |
| GotoConversion.ValidateOdds | Infrastructure/Services/GotoConversionService.cs:180-196 | the loop over the array gives the same verdict as the validation rules |
| GotoConversion.Normalize | Infrastructure/Services/GotoConversionService.cs:156-166 | a non-positive sum is an error; otherwise the result has the same length, sums to 1 and is proportional to the input |
| GotoConversion.NormalizePositive | Infrastructure/Services/GotoConversionService.cs:156-166 | two or more positive weights normalise to probabilities strictly between 0 and 1 |
| GotoConversion.Inverses | Infrastructure/Services/GotoConversionService.cs:35 | each inverse times its odd is 1 |
| GotoConversion.InversesOfValidOdds | Infrastructure/Services/GotoConversionService.cs:35 | the raw probabilities of valid odds are positive and below 1 |
| GotoConversion.FallbackOfValidOdds | Infrastructure/Services/GotoConversionService.cs:171-175 | the fallback normalisation of valid odds succeeds, with probabilities in (0, 1) that sum to 1 |
| GotoConversion.BiasCorrection | Infrastructure/Services/GotoConversionService.cs:130-151 | the favourite-longshot factor is 0.7, 1.0, 1.3 or 1.6 by odd band, and stays within [0.7, 1.6] |
| GotoConversion.BiasCorrectionMonotone | Infrastructure/Services/GotoConversionService.cs:130-151 | a longer odd never gets a smaller bias factor |
| GotoConversion.ReductionMonotone | Infrastructure/Services/GotoConversionService.cs:105-120 | a larger weight and a larger bias never give a smaller reduction of the margin; with a positive margin, a strictly larger weight or a strictly larger bias (on a positive weight) gives a strictly larger reduction |
| GotoConversion.Variances | Infrastructure/Services/GotoConversionService.cs:89-96 | one variance term per outcome, p(1-p)·odd |
| GotoConversion.Weights | Infrastructure/Services/GotoConversionService.cs:94 | each weight is the square root of its variance |
| GotoConversion.Adjustments | Infrastructure/Services/GotoConversionService.cs:105-120 | each adjusted probability is the raw one minus its share of the margin, floored at 0.001 |
| GotoConversion.GotoAdjust | Infrastructure/Services/GotoConversionService.cs:79-123 | a zero total weight is the arithmetic failure; otherwise every adjusted probability is at least 0.001 |
| GotoConversion.ApplyGotoConversion | Infrastructure/Services/GotoConversionService.cs:79-123 | the loops compute the weights, their total and the floored reductions of the specification |
| GotoConversion.ConvertOddsToProbabilities | Infrastructure/Services/GotoConversionService.cs:28-73 | the method gives the conversion's result: validate, take inverses, normalise a near-fair book, goto-adjust otherwise, and fall back on failure |
| GotoConversion.ConversionRejectsInvalid | Infrastructure/Services/GotoConversionService.cs:30 | the conversion fails exactly when the validation fails, with the same error |
| GotoConversion.ConversionOfValidOdds | Infrastructure/Services/GotoConversionService.cs:28-73 | valid odds always convert, on every path, to probabilities in (0, 1) that sum to 1 and keep the number of outcomes |
| GotoConversion.NearFairBookIsNormalised | Infrastructure/Services/GotoConversionService.cs:47-51 | a margin below 0.001 gives the plain normalisation of the inverses |
| GotoConversion.AdjustmentPathTaken | Infrastructure/Services/GotoConversionService.cs:54-57 | with a positive square root, a margin of 0.001 or more takes the goto path, which then succeeds and is normalised |
| GotoConversion.CompareConversionMethods | Infrastructure/Services/GotoConversionService.cs:202-212 | invalid odds are rejected with the validation's error; valid odds give the goto result and the plain normalisation side by side |
| ValueBetCalculation.AsciiEncode | Infrastructure/Services/Scraping/ValueBetCalculationService.cs:181-183 | the length is kept; every non-ASCII character becomes '?' |
| ValueBetCalculation.KeepAlphanumeric | Infrastructure/Services/Scraping/ValueBetCalculationService.cs:188-189 | only letters, digits and spaces of the input survive; a text made only of them is kept whole and any other single character is removed |
| ValueBetCalculation.WithoutStopWords | Infrastructure/Services/Scraping/ValueBetCalculationService.cs:185-194 | exactly the tokens that are not stop words are kept; a list without stop words is kept whole |
| ValueBetCalculation.NameTokens | Infrastructure/Services/Scraping/ValueBetCalculationService.cs:174-196 | every token is non-empty, is not a stop word, and holds only lower-case ASCII letters and digits |
| ValueBetCalculation.NormalizeName | Infrastructure/Services/Scraping/ValueBetCalculationService.cs:174-197 | the empty name stays empty; every character of a normalised name is a lower-case letter, a digit or a space |
| ValueBetCalculation.KeepAlphanumericConcat | Infrastructure/Services/Scraping/ValueBetCalculationService.cs:188-189 | the filter of a concatenation is the concatenation of the filters, so every letter, digit and space is kept in order and nothing else |
| ValueBetCalculation.NameTokensOfCleanText | Infrastructure/Services/Scraping/ValueBetCalculationService.cs:174-196 | on lower-case letters, digits and spaces that the decomposition leaves alone, the tokens are the space-separated words minus the stop words |
| ValueBetCalculation.JoinOfCleanWords | Infrastructure/Services/Scraping/ValueBetCalculationService.cs:196 | lower-case alphanumeric words joined by spaces hold only letters, digits and spaces |
| ValueBetCalculation.NameTokensOfCleanWords | Infrastructure/Services/Scraping/ValueBetCalculationService.cs:174-197 | a name written as clean words separated by single spaces keeps exactly its non-stop words, in order and with repetitions, and normalises to them joined by single spaces |
| ValueBetCalculation.NormalizeNameIdempotent | Infrastructure/Services/Scraping/ValueBetCalculationService.cs:174-197 | normalising a normalised name gives it back unchanged |
| ValueBetCalculation.NormalizedNameWords | Infrastructure/Services/Scraping/ValueBetCalculationService.cs:192-196 | the normalised name is single-spaced, and splitting it gives back exactly its tokens, none of them a stop word |
| ValueBetCalculation.Percent | Infrastructure/Services/Scraping/ValueBetCalculationService.cs:221-225 | a ratio in [0, 100] that is 100 exactly when the parts are equal and 0 exactly when the part is empty |
| ValueBetCalculation.SetRatio | Infrastructure/Services/Scraping/ValueBetCalculationService.cs:217-225 | the token-set similarity lies in [0, 100] |
| ValueBetCalculation.SetRatioSymmetric | Infrastructure/Services/Scraping/ValueBetCalculationService.cs:217-225 | the similarity does not depend on the order of the two sets |
| ValueBetCalculation.SetRatioExtremes | Infrastructure/Services/Scraping/ValueBetCalculationService.cs:217-225 | for non-empty sets it is 100 exactly when the sets are equal and 0 exactly when they are disjoint |
| ValueBetCalculation.TokenSetRatio | Infrastructure/Services/Scraping/ValueBetCalculationService.cs:208-226 | in [0, 100]; two empty names score 100 and exactly one empty name scores 0 |
| ValueBetCalculation.TokenSetRatioSymmetric | Infrastructure/Services/Scraping/ValueBetCalculationService.cs:208-226 | the name similarity is symmetric |
| ValueBetCalculation.TokenSetRatioExtremes | Infrastructure/Services/Scraping/ValueBetCalculationService.cs:208-226 | names with tokens score 100 exactly when their token sets agree and 0 exactly when they share none |
| ValueBetCalculation.First1X2 | Infrastructure/Services/Scraping/ValueBetCalculationService.cs:54-55 | none exactly when no row is a 1X2 market; otherwise the first 1X2 row |
| ValueBetCalculation.MinuteKey | Infrastructure/Services/Scraping/ValueBetCalculationService.cs:200-205 | the kickoff's minute: the tick count lies in that minute |
| ValueBetCalculation.ScorePair | Infrastructure/Services/Scraping/ValueBetCalculationService.cs:68-86 | a pair is in the same minute exactly when the kickoff minutes agree; the team scores compare the normalised names |
| ValueBetCalculation.ScorePairBounds | Infrastructure/Services/Scraping/ValueBetCalculationService.cs:84-86 | both team scores lie in [0, 100] |
| ValueBetCalculation.Scan | Infrastructure/Services/Scraping/ValueBetCalculationService.cs:92-99 | a best match found among the first n candidates has an index below n |
| ValueBetCalculation.ScanIsFirstMaximum | Infrastructure/Services/Scraping/ValueBetCalculationService.cs:92-99 | no match exactly when no candidate passes the thresholds; otherwise the first accepted candidate of greatest average score |
| ValueBetCalculation.PairScores | Infrastructure/Services/Scraping/ValueBetCalculationService.cs:71-86 | one score per Pinnacle event, in order |
| ValueBetCalculation.BestMatchIsFirstMaximum | Infrastructure/Services/Scraping/ValueBetCalculationService.cs:61-100 | the chosen Pinnacle event is accepted, scores at least 80, scores no less than any accepted event, and is the first of those that tie |
| ValueBetCalculation.FindBestMatch | Infrastructure/Services/Scraping/ValueBetCalculationService.cs:61-100 | the search loop returns the first maximum of the specification |
| ValueBetCalculation.CalculateExpectedValue | Infrastructure/Services/Scraping/ValueBetCalculationService.cs:301-304 | the expected value is probability times odd minus one |
| ValueBetCalculation.CalculateImpliedProbabilities | Infrastructure/Services/Scraping/ValueBetCalculationService.cs:306-309 | defined exactly when no odd is zero; then each probability times its odd is 1 |
| ValueBetCalculation.SelectOutcome | Infrastructure/Services/Scraping/ValueBetCalculationService.cs:239-277 | the chosen outcome has the largest expected value; ties go to team 1, then to the draw; its odds and probability are that outcome's |
| ValueBetCalculation.CalculateEVPythonStyle | Infrastructure/Services/Scraping/ValueBetCalculationService.cs:229-291 | no result exactly when a Pinnacle odd is zero; otherwise the selection over the raw 1/odd probabilities |
| ValueBetCalculation.CandidateMeaning | Infrastructure/Services/Scraping/ValueBetCalculationService.cs:50-146 | an event yields a value bet exactly when it has 1X2 odds, a match with 1X2 odds exists and the best EV is at least 0.01; then the bet carries the fresh id, the Betby event's league, kickoff, teams and link, that EV and the match's confidence |
| ValueBetCalculation.SortDescending | Infrastructure/Services/Scraping/ValueBetCalculationService.cs:160-161 | a permutation of the value bets, ordered by non-increasing expected value |
| ValueBetCalculation.EvaluateBetbyEvent | Infrastructure/Services/Scraping/ValueBetCalculationService.cs:50-146 | one iteration of the outer loop gives the candidate of the specification for that event |
| ValueBetCalculation.CalculateValueBets | Infrastructure/Services/Scraping/ValueBetCalculationService.cs:25-171 | the result is the accepted candidates of all Betby events, sorted by descending EV |
| ValueBetCalculation.CalculatedValueBetsAreAccepted | Infrastructure/Services/Scraping/ValueBetCalculationService.cs:115-161 | every reported bet has EV ≥ 0.01 and confidence ≥ 80 and is the candidate of one Betby event, carrying that event's fresh id; there are at most as many as events, in descending EV |
| BetbyParsing.KeepDigits | Infrastructure/Services/Scraping/BetbyScrapingService.cs:287 | only digits remain, a string of digits is kept whole, and a single non-digit is removed |
| BetbyParsing.KeepDigitsConcat | Infrastructure/Services/Scraping/BetbyScrapingService.cs:287 | the digits of a concatenation are the digits of each part in turn, so every digit is kept in order and nothing else |
| BetbyParsing.ParseInt32 | Infrastructure/Services/Scraping/BetbyScrapingService.cs:289 | a digit string parses exactly when it is non-empty and its value fits in an Int32 |
| BetbyParsing.TwoDigits | Infrastructure/Services/Scraping/BetbyScrapingService.cs:297 | the two-digit cents with a leading zero read back as the number |
| BetbyParsing.ConvertOddToDecimal | Infrastructure/Services/Scraping/BetbyScrapingService.cs:280-316 | "0" for the empty string; the formatted odd when the digits parse to a positive number; the raw text otherwise |
| BetbyParsing.DecimalValueOfPoint | Infrastructure/Services/Scraping/BetbyScrapingService.cs:296-304 | a text `whole.frac` reads back as whole plus frac shifted by its length |
| BetbyParsing.HundredthsValue | Infrastructure/Services/Scraping/BetbyScrapingService.cs:294-298 | three or more digits n read back as n/100 |
| BetbyParsing.TenthsValue | Infrastructure/Services/Scraping/BetbyScrapingService.cs:300-304 | two digits n read back as n/10 |
| BetbyParsing.UnitsValue | Infrastructure/Services/Scraping/BetbyScrapingService.cs:306-309 | one digit n reads back as n |
| BetbyParsing.OddTextValue | Infrastructure/Services/Scraping/BetbyScrapingService.cs:289-309 | the converted odd is exactly n/100, n/10 or n as a decimal: the point is placed and no digit is lost |
| BetbyParsing.Lines | Infrastructure/Services/Scraping/BetbyScrapingService.cs:198-201 | every card line is non-empty, trimmed and free of line breaks |
| BetbyParsing.LinesOfJoinedCard | Infrastructure/Services/Scraping/BetbyScrapingService.cs:198-201 | card lines joined by line breaks are cut back into exactly those lines |
| BetbyParsing.NonEmptyTrimmed | Infrastructure/Services/Scraping/BetbyScrapingService.cs:199-200 | the survivors are card lines, no more than the pieces; none survives exactly when every piece is blank; a non-blank first piece comes out first, trimmed |
| BetbyParsing.NonEmptyTrimmedConcat | Infrastructure/Services/Scraping/BetbyScrapingService.cs:199-200 | trimming and dropping blank pieces distributes over concatenation, so the result is the trim of every non-blank piece in order |
| BetbyParsing.TrimOfCardLine | Infrastructure/Services/Scraping/BetbyScrapingService.cs:199 | trimming a card line leaves it unchanged |
| BetbyParsing.NonEmptyTrimmedOfCardLines | Infrastructure/Services/Scraping/BetbyScrapingService.cs:199-200 | card lines pass through unchanged |
| BetbyParsing.Find1x2 | Infrastructure/Services/Scraping/BetbyScrapingService.cs:249 | the first line equal to "1x2" ignoring case, or none when no line is |
| BetbyParsing.OddsOfCard | Infrastructure/Services/Scraping/BetbyScrapingService.cs:247-259 | if line k is the first that reads "1x2" and line k + 6 exists, the converted lines k + 2, k + 4 and k + 6; "0" each when that line is too close to the end or no line reads "1x2" |
| BetbyParsing.CardOfLines | Infrastructure/Services/Scraping/BetbyScrapingService.cs:203-270 | a card parses exactly when it has six lines and the kickoff conversion does not throw; the league, teams, date and odds come from their fixed lines |
| BetbyParsing.ParseRawText | Infrastructure/Services/Scraping/BetbyScrapingService.cs:194-277 | the text is cut into card lines and parsed; team names are non-empty and trimmed |
| BetbyParsing.ParseRawTextOfJoinedCard | Infrastructure/Services/Scraping/BetbyScrapingService.cs:194-277 | a card written as lines parses as those lines; fewer than six lines give no event |
| Text.Trim | Domain/Entities/Transaction.cs:123 | never longer; empty exactly for a blank string; no white space at either end |
| Text.TrimIsSlice | Domain/Entities/Transaction.cs:123 | the result is a slice of the input, and everything outside the slice is white space |
| Text.ToLower | Domain/Entities/User.cs:46 | same length, each ASCII capital lowered and every other character kept |
| Text.SplitJoin | Infrastructure/Services/Scraping/ValueBetCalculationService.cs:192-196 | joining non-empty separator-free tokens and splitting again gives back the tokens |
| Text.NatToString | Infrastructure/Services/Scraping/BetbyScrapingService.cs:308 | a non-empty digit string without a leading zero, one digit exactly below 10 |
| Text.DigitsValueOfNatToString | Infrastructure/Services/Scraping/BetbyScrapingService.cs:308 | the decimal text of n reads back as n |
| OddEntity.ValidateOdd | Domain/Entities/Odd.cs:39-45 | an odd is accepted exactly when positive, and is kept as given |
| OddEntity.CheckOdds | Domain/Entities/Odd.cs:25-27 | all three odds positive, or the first non-positive one is reported |
| OddEntity.Odd.constructor | Domain/Entities/Odd.cs:19-30 | a valid odd holding the arguments, created at now |
| OddEntity.Odd.UpdateOdds | Domain/Entities/Odd.cs:32-37 | the odds validated so far are replaced and a rejected one stops the update; only positive odds are ever stored |
| OddEntity.CreateOdd | Domain/Entities/Odd.cs:19-30 | fails with the first invalid odd, or gives a fresh valid odd holding the arguments |
| EventEntity.ValidateAndTrim | Domain/Entities/Event.cs:71-77 | a blank value is rejected; any other is stored trimmed |
| EventEntity.CheckNames | Domain/Entities/Event.cs:32-35 | league, team 1 and team 2 are checked in that order and the first blank one is reported |
| EventEntity.Event.constructor | Domain/Entities/Event.cs:28-42 | trimmed names; a new event is scheduled and active, without bets and not archived |
| EventEntity.Event.UpdateStatus | Domain/Entities/Event.cs:44-47 | only the status changes |
| EventEntity.Event.UpdateScrapedAt | Domain/Entities/Event.cs:49-52 | only the scrape time changes |
| EventEntity.Event.MarkAsHavingBets | Domain/Entities/Event.cs:54-57 | only the bets flag is set |
| EventEntity.Event.Archive | Domain/Entities/Event.cs:59-63 | inactive and archived at now; nothing else changes |
| EventEntity.Event.Reactivate | Domain/Entities/Event.cs:65-69 | active again with no archive time; nothing else changes |
| EventEntity.CreateEvent | Domain/Entities/Event.cs:28-42 | fails with the first blank name, or gives a fresh valid scheduled event |
| BetEntity.CheckStake | Domain/Entities/Bet.cs:82-99 | passes exactly for a stake in (0, 10000] and odds above 1; otherwise the first failing rule is reported |
| BetEntity.ProfitIsReturnMinusStake | Domain/Entities/Bet.cs:71-80 | a settled bet's profit is its return minus its stake, an open bet's is 0, and a bet never loses more than its stake |
| BetEntity.ReturnExceedsStake | Domain/Entities/Bet.cs:101-104 | odds above 1 make the potential return exceed the stake |
| BetEntity.Bet.constructor | Domain/Entities/Bet.cs:26-39 | an open, valid bet whose potential return is stake times odds |
| BetEntity.Bet.Record | Domain/Entities/Bet.cs:8-20 | a valid bet's fields form a valid record |
| BetEntity.Bet.CalculateProfit | Domain/Entities/Bet.cs:71-80 | 0 while open; return minus stake once settled; between minus the stake and the potential return minus the stake |
| BetEntity.Bet.SettleAsWon | Domain/Entities/Bet.cs:41-49 | only an open bet settles: it is then won and returns its potential return; otherwise nothing changes |
| BetEntity.Bet.SettleAsLost | Domain/Entities/Bet.cs:51-59 | only an open bet settles: it is then lost and returns 0; otherwise nothing changes |
| BetEntity.Bet.VoidBet | Domain/Entities/Bet.cs:61-69 | only an open bet is voided: it then returns its stake; otherwise nothing changes |
| BetEntity.CreateBet | Domain/Entities/Bet.cs:26-39 | fails on the first invalid argument, or gives a fresh valid open bet |
| TransactionEntity.CreditOrDebit | Domain/Entities/Transaction.cs:71-84 | every transaction type is either a credit or a debit, never both |
| TransactionEntity.BalanceAfter | Domain/Entities/Transaction.cs:126-136 | credits add the amount and debits subtract it |
| TransactionEntity.CheckAmount | Domain/Entities/Transaction.cs:86-105 | positive, and at most 50000 for a deposit and 25000 for a withdrawal |
| TransactionEntity.ValidateDescription | Domain/Entities/Transaction.cs:115-124 | blank or over 500 characters is rejected; otherwise the description is stored trimmed |
| TransactionEntity.CheckTransaction | Domain/Entities/Transaction.cs:33-37 | amount, then balance, then description; passes exactly when all three do |
| TransactionEntity.Transaction.constructor | Domain/Entities/Transaction.cs:26-41 | a pending, valid transaction recording the balance it leaves behind |
| TransactionEntity.Transaction.CompleteTransaction | Domain/Entities/Transaction.cs:43-50 | only a pending transaction completes, at now; otherwise nothing changes |
| TransactionEntity.Transaction.FailTransaction | Domain/Entities/Transaction.cs:52-60 | only a pending transaction fails; the status changes before the reason is validated, so a rejected reason leaves it failed with no reason |
| TransactionEntity.Transaction.CancelTransaction | Domain/Entities/Transaction.cs:62-69 | only a pending transaction is cancelled, at now; otherwise nothing changes |
| TransactionEntity.CreateTransaction | Domain/Entities/Transaction.cs:26-41 | fails with the first failed validation, or gives a fresh valid pending transaction |
| UserEntity.ValidateAndNormalizeEmail | Domain/Entities/User.cs:41-52 | blank is EmailEmpty; otherwise the lower-cased, trimmed address must pass the e-mail check, and it is what is stored |
| UserEntity.ValidateName | Domain/Entities/User.cs:54-60 | a blank name is rejected; any other is stored trimmed |
| UserEntity.ValidatePasswordHash | Domain/Entities/User.cs:62-68 | a blank hash is rejected; any other is kept as given |
| UserEntity.CheckUser | Domain/Entities/User.cs:32-34 | e-mail, then name, then hash; passes exactly when all three do |
| UserEntity.TokenExpiresForGood | Domain/Entities/User.cs:128-142 | a token valid at some instant was valid at every earlier one, and an empty token is never valid |
| UserEntity.User.constructor | Domain/Entities/User.cs:29-38 | an active user with balance 0, a normalised e-mail, a trimmed name and no tokens |
| UserEntity.User.UpdateBalance | Domain/Entities/User.cs:84-90 | the argument becomes the balance; a negative one is refused and changes nothing |
| UserEntity.User.RecordLogin | Domain/Entities/User.cs:92-96 | the login time is now and the user is active |
| UserEntity.User.SetRefreshToken | Domain/Entities/User.cs:98-102 | the token and expiry are stored; validity is then exactly a match before the expiry |
| UserEntity.User.ClearRefreshToken | Domain/Entities/User.cs:104-108 | no refresh token remains valid |
| UserEntity.User.GeneratePasswordResetToken | Domain/Entities/User.cs:110-114 | the reset token and expiry are stored; validity is then exactly a match before the expiry |
| UserEntity.User.ResetPassword | Domain/Entities/User.cs:116-121 | a non-blank hash replaces the password and clears the reset token; a blank one changes nothing |
| UserEntity.User.ChangePassword | Domain/Entities/User.cs:123-126 | a non-blank hash replaces the password; a blank one changes nothing |
| UserEntity.User.Deactivate | Domain/Entities/User.cs:144-148 | inactive, and no refresh token stays valid |
| UserEntity.User.ChangeEmail | Domain/Entities/User.cs:150-153 | the normalised address replaces the e-mail when it validates; otherwise nothing changes |
| UserEntity.CreateUser | Domain/Entities/User.cs:29-38 | fails with the first failed validation, or gives a fresh valid active user |
| LedgerStore.Store.constructor | Application/Bets/Commands/PlaceBet/PlaceBetCommandHandler.cs:21-22 | an empty, valid store |
| LedgerStore.Store.SetBalance | Domain/Entities/User.cs:84-90 | the stored user's balance is set when non-negative and a refused balance changes nothing; every other field of the user and every other balance stays as it was, and the store stays valid |
| LedgerStore.Store.AddBet | Application/Bets/Commands/PlaceBet/PlaceBetCommandHandler.cs:57 | the bet is added under its id and nothing else changes |
| LedgerStore.Store.AddTransaction | Application/Users/Commands/DepositBalance/DepositBalanceCommandHandler.cs:56 | the transaction is appended and nothing else changes |
| LedgerStore.Store.SettleStoredBet | Application/Bets/Commands/SettleBet/SettleBetCommandHandler.cs:49-79 | the stored bet settles in place through the entity when open and is untouched otherwise; what it was placed with (ids, market, outcome, stake, odds, potential return, placing time) is kept, no balance changes and the store stays valid |
| LedgerStore.Store.PostCredit | Application/Users/Commands/DepositBalance/DepositBalanceCommandHandler.cs:42-59 | one completed transaction is appended, recording the old and new balance; the balance rises by the amount, the user's other fields are kept and no other balance changes |
| PlaceBetCommandHandler.CheckPlaceBet | Application/Bets/Commands/PlaceBet/PlaceBetCommandHandler.cs:24-51 | the user, balance, event, kickoff, status and stake checks in source order; on success the stake can be paid from the balance |
| PlaceBetCommandHandler.Handle | Application/Bets/Commands/PlaceBet/PlaceBetCommandHandler.cs:18-58 | result as the checks give; on success the balance drops by the stake, the user's other fields are kept and exactly one fresh open bet is added; on failure neither the store nor the user changes |
| SettleBetCommandHandler.CheckSettleBet | Application/Bets/Commands/SettleBet/SettleBetCommandHandler.cs:26-100 | not found, not the owner, not open, or an invalid outcome, each exactly in its case; otherwise only the transaction's validations can fail |
| SettleBetCommandHandler.OnlyLongDescriptionsRejectSettlement | Application/Bets/Commands/SettleBet/SettleBetCommandHandler.cs:86-100 | for a valid open bet, a settlement can only be rejected for a description over 500 characters |
| SettleBetCommandHandler.SettlingTwiceFails | Application/Bets/Commands/SettleBet/SettleBetCommandHandler.cs:37-38 | a settled bet cannot be settled again |
| SettleBetCommandHandler.Handle | Application/Bets/Commands/SettleBet/SettleBetCommandHandler.cs:24-102 | result as the checks give; on success the bet settles keeping what it was placed with, the balance rises by the return, the user's other fields are kept and a completed transaction records it (none for a loss); on failure neither the store, the bet nor its owner changes |
| SettleBetCommandHandler.ApplySettlement | Application/Bets/Commands/SettleBet/SettleBetCommandHandler.cs:49-100 | the bet settles to the outcome's status and keeps what it was placed with; money moves exactly unless lost, through one completed transaction; the user's other fields are kept |
| DepositBalanceCommandHandler.CheckDeposit | Application/Users/Commands/DepositBalance/DepositBalanceCommandHandler.cs:31-49 | user not found, not active, or the deposit transaction's validations, in that order |
| DepositBalanceCommandHandler.AcceptedDepositInLimits | Domain/Entities/Transaction.cs:94-96 | an accepted deposit lies in (0, 50000] |
| DepositBalanceCommandHandler.Handle | Application/Users/Commands/DepositBalance/DepositBalanceCommandHandler.cs:23-90 | result as the checks give; on success the balance grows by exactly the deposit, the user's other fields are kept, and one completed deposit transaction records it; on failure neither the store nor the user changes |
| BetStatistics.UserBets | Application/Bets/Queries/GetBetStatistics/GetBetStatisticsQueryHandler.cs:20-22 | exactly the user's bets, each as many times as it is stored |
| BetStatistics.CountStatus | Application/Bets/Queries/GetBetStatistics/GetBetStatisticsQueryHandler.cs:25-28 | never more than the bets; 0 exactly when no bet has the status |
| BetStatistics.WinRate | Application/Bets/Queries/GetBetStatistics/GetBetStatisticsQueryHandler.cs:34-35 | the share of won among won and lost bets, in per cent, 0 when none is settled |
| BetStatistics.Percentage | Application/Bets/Queries/GetBetStatistics/GetBetStatisticsQueryHandler.cs:35 | x as a percentage of y, within [0, 100] when 0 ≤ x ≤ y |
| BetStatistics.Roi | Application/Bets/Queries/GetBetStatistics/GetBetStatisticsQueryHandler.cs:37 | profit as a percentage of the stakes, 0 with nothing staked |
| BetStatistics.AverageOdds | Application/Bets/Queries/GetBetStatistics/GetBetStatisticsQueryHandler.cs:38 | the mean of the odds, 0 for no bets |
| BetStatistics.WonProfits | Application/Bets/Queries/GetBetStatistics/GetBetStatisticsQueryHandler.cs:40-41 | one profit per won bet |
| BetStatistics.Abs | Application/Bets/Queries/GetBetStatistics/GetBetStatisticsQueryHandler.cs:46 | the non-negative one of x and -x |
| BetStatistics.MaxOrZero | Application/Bets/Queries/GetBetStatistics/GetBetStatisticsQueryHandler.cs:42-43 | 0 for none; otherwise an element no smaller than any other |
| BetStatistics.GetBetStatistics | Application/Bets/Queries/GetBetStatistics/GetBetStatisticsQueryHandler.cs:18-66 | counts the user's bets; win rate in [0, 100]; profit/loss equals total profit; the biggest win is the largest profit of a won bet and the biggest loss the largest absolute profit of a lost bet, each 0 when there is none; all zero for no bets |
| BetStatistics.StatusCountsBounded | Application/Bets/Queries/GetBetStatistics/GetBetStatisticsQueryHandler.cs:24-28 | open, won, lost and void bets are all bets but the cashed-out ones |
| BetStatistics.LossesNonNegative | Application/Bets/Queries/GetBetStatistics/GetBetStatisticsQueryHandler.cs:45-48 | the biggest loss is never negative |
| BetStatistics.AllLossesNonNegative | Application/Bets/Queries/GetBetStatistics/GetBetStatisticsQueryHandler.cs:45-48 | every loss is non-negative |
| BetStatistics.BiggestWinNonNegative | Application/Bets/Queries/GetBetStatistics/GetBetStatisticsQueryHandler.cs:40-43 | for valid bets the biggest win is ≥ 0, and > 0 once a bet is won |
| BetStatistics.WonProfitsPositive | Application/Bets/Queries/GetBetStatistics/GetBetStatisticsQueryHandler.cs:40-41 | every won bet has a positive profit |
| BetStatistics.BiggestWinIsMaximum | Application/Bets/Queries/GetBetStatistics/GetBetStatisticsQueryHandler.cs:40-43 | the biggest win is at least every won bet's profit, and is one of them |
| BetStatistics.WonProfitsAreWins | Application/Bets/Queries/GetBetStatistics/GetBetStatisticsQueryHandler.cs:40-41 | the won profits are exactly the profits of the won bets |
| BetStatistics.BiggestLossIsMaximum | Application/Bets/Queries/GetBetStatistics/GetBetStatisticsQueryHandler.cs:45-48 | the biggest loss is at least every lost bet's absolute profit, and is one of them |
| BetStatistics.LostLossesAreLosses | Application/Bets/Queries/GetBetStatistics/GetBetStatisticsQueryHandler.cs:45-46 | the lost amounts are exactly the absolute profits of the lost bets |
| BetStatistics.TotalProfitIsReturnsMinusStakes | Application/Bets/Queries/GetBetStatistics/GetBetStatisticsQueryHandler.cs:31 | total profit is the settled returns minus the settled stakes |
| BetStatistics.ProfitBoundedByStake | Application/Bets/Queries/GetBetStatistics/GetBetStatisticsQueryHandler.cs:30-38 | the total loss never exceeds the total stake, and the average odds of some bets exceed 1 |
| DashboardMetrics.CountSettled | Application/Dashboard/Queries/GetDashboardMetrics/GetDashboardMetricsQueryHandler.cs:163 | never more than the bets |
| DashboardMetrics.WonAmongSettled | Application/Dashboard/Queries/GetDashboardMetrics/GetDashboardMetricsQueryHandler.cs:162-163 | won bets are among the non-open ones |
| DashboardMetrics.CalculatePeriodMetrics | Application/Dashboard/Queries/GetDashboardMetrics/GetDashboardMetricsQueryHandler.cs:159-178 | counts every bet; the win rate is won over non-open bets, within [0, 100]; profit is the won returns minus all stakes |
| DashboardMetrics.SettledWinRate | Application/Dashboard/Queries/GetDashboardMetrics/GetDashboardMetricsQueryHandler.cs:165 | won as a percentage of settled, 0 with none settled, within [0, 100] |
| DashboardMetrics.PeriodProfitCountsOpenAndVoidStakesAsLost | Application/Dashboard/Queries/GetDashboardMetrics/GetDashboardMetricsQueryHandler.cs:167-170 | the period profit treats open and void stakes as lost |
| DashboardMetrics.PeriodProfitIdentity | Application/Dashboard/Queries/GetDashboardMetrics/GetDashboardMetricsQueryHandler.cs:167-170 | the period profit is the bet profit less the open and void stakes |
| DashboardMetrics.PercentageChange | Application/Dashboard/Queries/GetDashboardMetrics/GetDashboardMetricsQueryHandler.cs:180-186 | from 0: 100 for a rise and 0 otherwise; else the change as a percentage of the old value |
| DashboardMetrics.PercentageChangeSign | Application/Dashboard/Queries/GetDashboardMetrics/GetDashboardMetricsQueryHandler.cs:180-186 | a positive old value gives a positive change exactly for a rise, a negative old value exactly for a fall; 0 exactly for no change or a fall from 0 |
| DashboardMetrics.PeriodInDays | Application/Dashboard/Queries/GetDashboardMetrics/GetDashboardMetricsQueryHandler.cs:42 | 30 days when none is requested |
| DashboardMetrics.CurrentPeriodBets | Application/Dashboard/Queries/GetDashboardMetrics/GetDashboardMetricsQueryHandler.cs:47-51 | exactly the user's bets placed since the period start, each as many times as it is stored |
| DashboardMetrics.PreviousPeriodBets | Application/Dashboard/Queries/GetDashboardMetrics/GetDashboardMetricsQueryHandler.cs:53-57 | exactly the user's bets placed in the window before it, each as many times as it is stored |
| DashboardMetrics.ActiveBets | Application/Dashboard/Queries/GetDashboardMetrics/GetDashboardMetricsQueryHandler.cs:60-64 | exactly the user's open bets, each as many times as it is stored |
| DashboardMetrics.WindowsPartition | Application/Dashboard/Queries/GetDashboardMetrics/GetDashboardMetricsQueryHandler.cs:42-57 | the two windows are disjoint and together hold every bet since the previous start |
| DashboardMetrics.CountWhere | Application/Dashboard/Queries/GetDashboardMetrics/GetDashboardMetricsQueryHandler.cs:81-82 | never more than the bets |
| DashboardMetrics.MetricsDto | Application/Dashboard/Queries/GetDashboardMetrics/GetDashboardMetricsQueryHandler.cs:85-125 | each card shows the current value and its change from the previous period; active bets show no change |
| DashboardMetrics.Warnings | Application/Dashboard/Queries/GetDashboardMetrics/GetDashboardMetricsQueryHandler.cs:127-138 | the fewer-than-5 warning exactly with under five bets; the no-previous-data warning exactly with none before and some now; each at most once, in that order |
| DashboardMetrics.Handle | Application/Dashboard/Queries/GetDashboardMetrics/GetDashboardMetricsQueryHandler.cs:23-148 | a missing user is the "User not found" failure; otherwise success with the cards of the two windows and each warning exactly in its case, nothing else, at most once and in source order; always a consistent envelope |
| ApiResponses.WarningsOrEmpty | Application/Common/Models/ApiResponse.cs:26-35 | the warnings given, or none for null |
| ApiResponses.Success | Application/Common/Models/ApiResponse.cs:26-35 | successful, with the value and no errors; warnings flagged exactly when some are given |
| ApiResponses.Failure | Application/Common/Models/ApiResponse.cs:37-46 | unsuccessful with the errors and no warnings |
| ApiResponses.TotalOrCount | Application/Common/Models/ApiResponse.cs:61-66 | a positive total is kept, otherwise the item count is used |
| ApiResponses.NewApiResponseList | Application/Common/Models/ApiResponse.cs:61-66 | successful, without errors or warnings |
| ApiResponses.ListSuccess | Application/Common/Models/ApiResponse.cs:68-79 | successful list; warnings flagged exactly when some are given |
| ApiResponses.ListFailure | Application/Common/Models/ApiResponse.cs:81-92 | unsuccessful, counts reset, items defaulting to none |
| ApiResponses.ConstructorIsSuccessWithoutWarnings | Application/Common/Models/ApiResponse.cs:61-79 | the constructor gives the same envelope as Success with no warnings |
| EnhancedPaging.PageCount | Application/DTOs/EnhancedPagedResult.cs:30 | the fewest pages of the size that hold all items |
| EnhancedPaging.PageCountBounds | Application/DTOs/EnhancedPagedResult.cs:30 | no items need no pages, and up to one page's worth needs one |
| EnhancedPaging.NewEnhancedPagedResult | Application/DTOs/EnhancedPagedResult.cs:24-33 | the page numbers are consistent and there are no errors or warnings |
| EnhancedPaging.NextPageMeansMoreItems | Application/DTOs/EnhancedPagedResult.cs:31-32 | a next page exists exactly when the pages so far do not hold all items |
| EnhancedPaging.FromPagedResult | Application/DTOs/EnhancedPagedResult.cs:36-51 | the page is copied as is, successful, with the warnings given |
| EnhancedPaging.Success | Application/DTOs/EnhancedPagedResult.cs:53-59 | a consistent page with the warnings given |
| EnhancedPaging.Failure | Application/DTOs/EnhancedPagedResult.cs:61-76 | an empty page with every count 0, unsuccessful with the errors |
| EnhancedPaging.ToApiResponseList | Application/DTOs/EnhancedPagedResult.cs:79-91 | the total count becomes the total and the page number the page index |
| EnhancedPaging.ConversionKeepsConsistency | Application/DTOs/EnhancedPagedResult.cs:53-91 | every page the factories build converts into a consistent list envelope |
| EnhancedPaging.FailureConvertsToListFailure | Application/DTOs/EnhancedPagedResult.cs:61-91 | a failed page converts into the list failure |

## Left out

- Unicode: NFKD decomposition is a parameter (`nfkd`). `char.IsLetterOrDigit`, `\d`,
  `Trim`, `ToLower` and the regular expressions are modelled on ASCII only. There is
  no culture-specific casing.
- Floating point: `double` and `decimal` are exact reals. Rounding, the `F1`/`F2`
  formatting of doubles back from text, `Math.Round` and decimal overflow are not
  modelled. `Math.Sqrt` is the parameter `sqrt`.
- Int32 overflow of the counts and the ticks is not modelled. The one place where the
  source's range matters, `int.TryParse` in the Betby parser, is modelled (`Int32Max`).
- The clock, `Guid.NewGuid()` and the Brazil time-zone conversion of the Betby
  kickoff are parameters. The formatted kickoff text is left abstract.
- The value bet's `Guid.NewGuid()` (ValueBet.cs:24) is the parameter `newId`: `newId(i)`
  is the id of the value bet made for the i-th Betby event.
- The browser automation of the scrapers and the HTTP fetch of Pinnacle odds are not
  modelled. The value-bet engine works on snapshots of the events and their odds.
- Persistence: EF Core queries become map lookups and `SaveChangesAsync` is not
  modelled separately. Also left out:
  - the 24-hour purge of stale events;
  - logging;
  - the DTO mapping and its description helpers (`GetTypeDescription`,
    `GetStatusDescription`).
- `IApplicationDbContext` is not part of this model. In the model the transactions
  are a field of the store.
- Entity equality by `Id` (the `Entity<Guid>` base class) is not modelled.
  Identities are map keys, and a new id is a `requires` of the caller.
- The FluentValidation validators of the commands are not modelled: the e-mail
  format, the two-decimal amounts and the request limits. The entity validations
  that the handlers reach are modelled.
- `MailAddress` parsing is the parameter `isValidEmail`.
- SettleBetCommandHandler.Handle: the settlement transaction is validated before the
  bet and the balance change. In the source a rejected transaction throws before
  `SaveChangesAsync`, so none of its in-memory changes are stored. The stored state
  is the same, but the order of the in-memory steps is not.
- TransactionEntity.Transaction.FailTransaction: its update is split into
  `RecordFailure`, which takes the reason's validation result.
- Catch-all exception handlers are not modelled beyond the errors the model names:
  - the value-bet engine skips an event whose scoring throws (ValueBetCalculationService.cs:142-145) and handles the outer catch at 166-170;
  - the dashboard returns a generic failure (GetDashboardMetricsQueryHandler.cs:149-156);
  - the deposit handler rethrows (DepositBalanceCommandHandler.cs:86-90).

  The model throws nowhere else. In the Betby parser, the time-zone error is the
  only exception it models.
- EnhancedPaging.NewEnhancedPagedResult, EnhancedPaging.Success: require a positive
  page size. With a zero size the source divides by zero in `double`, and the cast of
  the infinite or NaN quotient to `int` is unspecified. With a negative size the source
  computes a finite, non-positive page count; the model does not cover that case.
- PagedResult.cs is not part of this model. `PagedResult<T>` has the fields that
  `FromPagedResult` reads.
- ValueBetCalculation.NameTokens, ValueBetCalculation.NormalizeName: their own
  contracts state only the shape of the words and characters. Which words survive is
  stated by NameTokensOfCleanWords and NormalizeNameIdempotent for names that are
  already lower-case ASCII words. For other names the lower-casing, the ASCII step and
  the filter are stated character by character (ToLower, AsciiEncode,
  KeepAlphanumericConcat), not as one law over the whole name.
- ValueBetCalculation.SortDescending: the source's `OrderByDescending` is stable;
  the model proves a sorted permutation but not which of two equal-EV bets comes
  first.
- ValueBetCalculation.FindBestMatch: it is generic over the name normaliser and the
  similarity function. The engine passes the modelled `NormalizeName` and
  `TokenSetRatio`.
- DashboardMetrics.Handle: the user lookup is the argument `userExists`, and "ends
  today" is the parameter `isEndingToday`.
- The controllers, the middleware and the scraping commands that call the core are
  not modelled.
