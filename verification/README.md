# Verified model of Setlyst's delivery, export and band protocols

A Dafny model of the parts of the Setlyst API where several things happen at
once or text must survive a round trip, with proofs of what they promise.

**The e-mail outbox.** Any number of API instances run the same delivery worker
over one table. `OutboxTable` holds the rows and the worker's statements, each
an atomic function of the table; `WorkerProtocol` interleaves the workers'
statements with each other, with crashes, lost outcomes and the clock.
`HourlyCap`, `ClaimSafety`, `RetrySpacing`, `DeliveryWindow`,
`ClaimSelection` and `Outcomes` prove what holds in every run of it, and
`HourlyOvershoot` that the bound on the hourly cap is the least there is. `Worker` is the worker itself,
updating the table in place, proved against the same statements. `OutboxQueue` is
the other end: queueing under the rolling limits, with the ranks and limits of
`Templates`.
A run is *timely* when a worker resolves each claim before its lock is ten
minutes old; `DeliveryWindow` says how slow deliveries may be for that.
`LateOutcome` and `PromptFinality` show that final states are final for just
as long.

**Text that must come back.** `Masking` is the character loop that masks
addresses, `MaskingOwners` what it leaves of them, `Base64Url` and `Unsubscribe`
the unsubscribe token with its way through the link and the header of RFC 8058,
`ChordPro` the export of songs, `ChordProFields` what it says of each and
`ChordProLyrics` which lines of the lyrics it keeps. `ChordProReading` splits an exported library back
into its songs; `ChordProImport` normalises, cleans and reads it as the importer
does, with what it needs of Unicode's NFC in `Normalization`, `ChordProHidden` says
which lyrics hide directives from the export, and `ChordProNumbers` reads its
numbers back.

**Claim, compensate, consume.** `SuggestionProtocol` interleaves every attempt
to close a song suggestion, with the effect of an acceptance taking its steps
among all other requests on setlists; `Acceptance` proves what holds,
`AcceptedSongs` where an accepted song ends up, `StrandedAcceptance` how it can
end up nowhere, `Closings` what an attempt comes to that nobody disturbs, and
`Suggestions` are the handlers in place. `OneShot` is the
two-factor challenge and the reset code under concurrent guesses, `Auth` their
handlers. `PdfLimiter` follows the permits of the PDF limiter.

**Setlists and files.** `BandLibrary` and `SetlistScope` are songs, band copies
and setlists under interleaved adds, removals, acceptances and trashings,
`Undisturbed` a request among them that nobody disturbs, `Setlists` the handlers
in place. `TourExport` is the memoised export loop.

All times are integers: microseconds in the outbox, unitless elsewhere.
Strings are sequences of Unicode scalar values.

## Where the code does less than its comments say

- `mask_emails_in` says it masks every e-mail address. Of an address `local@...`
  anywhere in a text nothing of `local` past its first character has a bearing on
  the result if and only if there is nothing more, or `local` holds no delimiter, a
  letter or digit opens the word no later than `local` does with no `@` in between,
  and another one comes between the `@` and the next delimiter
  (`MaskingOwners.OwnerIsMasked`; for an address that starts its word,
  `OwnerOnItsOwn` and `OwnerBecomesStars`). So an owner with an apostrophe
  (`ApostropheShows`), one without a letter or digit (`NoLetterShows`) and an address
  joined to another (`Masking.SecondAddressShows`) show.
- `embeddable_lyrics` says a stored chart can't start a new song of its own, nor
  be taken for two songs. That holds for every reader that breaks lines at `\n`
  (`ChordProReading.LibrarySplitsBack`). The importer also breaks lines at a lone
  `\r`, normalises, and drops control and invisible characters first. It takes an
  exported song for one song if and only if no line of its lyrics hides a song start
  or a title (`ChordProHidden.OneSongIsTaken`), and reads a song's own metadata if and
  only if none hides a directive of that name
  (`ChordProImport.MetadataIsTheFields`). A line hides one if and only if one of
  the pieces between its `\r` is one once cleaned (`ChordProHidden.HidesByPieces`);
  `InvisibleAddsATitle` and `LoneReturnStartsASong` are such lyrics,
  `HarmlessHidesNothing` and `TameLyricsHideNothing` tell lyrics that are safe.
- The outcome of a delivery is written by row id alone, so finality rests on
  timeliness: final states are final in every run whose claims are at most so old
  if and only if that age is within the ten minutes of the lock
  (`LateOutcome.FinalityNeedsTheLock`), and in every run of workers that claim
  within a set-up time and deliver within D each if and only if set-up plus 7 D is
  (`PromptFinality.FinalExactlyIfPrompt`). Past that a sent message can become
  pending again (`LateOutcome.LateRetryUndoesSent`).
- An acceptance that fails and cannot be undone leaves the suggestion accepted and
  its song nowhere (`StrandedAcceptance.UndoingFails`). So does one whose process
  dies after the claim: nothing recovers it
  (`AcceptedSongs.OnlyItsHolderMovesIt`, `StrandedAcceptance.ClaimDies`). In every
  other case at rest the acceptance put the song in its setlist, or found it there
  (`AcceptedSongs.AcceptedMeansLinked`).

## Model

| member | source | states |
|---|---|---|
| HourlyCap.HourlyCapHolds | src/email/worker.rs:320-393 | in every run of W workers the non-security messages sent in the trailing hour number at most cap - 1 + 25 W, and none are sent under a cap of 0, though count and claim are separate statements |
| HourlyOvershoot.OvershootExactly | src/email/worker.rs:320-393 | for W workers and a cap of at least one, no run ever has more non-security messages in its trailing hour than some bound, if and only if that is at least cap - 1 + 25 W |
| HourlyCap.CountSeesTheHour | src/email/worker.rs:320-333 | what a worker counts covers the hour before any later moment, which is why a stale count still bounds the claim |
| HourlyCap.WriteMovesBudget | src/email/worker.rs:534-571 | recording an outcome moves at most one message from what a batch may still send to what was sent |
| ClaimSafety.ClaimsAreExclusive | src/email/worker.rs:349-394 | in every timely run a row is held by one worker at most, and is then sending under that worker's lock |
| ClaimSafety.FinalStatesAreFinal | src/email/worker.rs:534-571 | in every timely run a sent, skipped or failed row never changes again |
| ClaimSafety.SendsAreBounded | src/email/worker.rs:450-529 | a message is accepted as sent at most once more often than its claim was swept, and one recorded sent was accepted |
| ClaimSafety.WorkIsBounded | src/email/worker.rs:377-386 | attempts count claims; a pending row has at most 9 plus its sweeps, a sending one at most 10 plus its sweeps, and claims and outcomes together are bounded by 20 plus sweeps |
| ClaimSafety.MeasureFalls | src/email/worker.rs:377-528 | a measure of the work left falls with each claim and each recorded outcome, and rises by one with a sweep only |
| ClaimSafety.PayloadLifetime | src/email/worker.rs:497-552 | until it is final a row holds exactly its queued payload; a final row of a code template holds an empty one |
| ClaimSafety.SweepSparesLiveClaims | src/email/worker.rs:349-356 | a sweep takes no row whose claim is younger than ten minutes |
| ClaimSafety.RunKeepsInv | src/email/worker.rs:342-571 | every reachable state of a timely run: rows, claims and history agree |
| LateOutcome.LateRetryUndoesSent | src/email/worker.rs:512-526 | for every age past the ten minutes of the lock, a run whose live claims are never older in which a swept worker's retry makes a sent message pending again |
| LateOutcome.FinalityNeedsTheLock | src/email/worker.rs:534-571 | in every run whose live claims are at most so old final rows never change, if and only if that age is at most ten minutes |
| PromptFinality.FinalExactlyIfPrompt | src/email/worker.rs:396-405 | in every run whose workers claim within a set-up time and deliver within D each final rows never change, if and only if set-up plus 7 D is at most ten minutes |
| RetrySpacing.ClaimsAreSpaced | src/email/worker.rs:512-526 | between a failure and the next claim, without a sweep between them, at least the backoff of that attempt passes |
| RetrySpacing.GivenUpOnlyAfterThreeHours | src/email/worker.rs:501-528 | a message never swept is given up on after a transient failure only once 11010 seconds, its nine delays, have passed since its first failure |
| OutboxTable.BackoffIsMonotoneAndBounded | src/email/worker.rs:279-282 | the delay never falls as attempts grow, stays between 30 and 3600 seconds, and its product fits 64 bits |
| OutboxTable.BackoffDoubles | src/email/worker.rs:279-282 | it doubles up to the seventh attempt and is an hour from the eighth on, exactly |
| DeliveryWindow.SevenRounds | src/email/worker.rs:396-405 | a full batch of deliveries of at most D is always done by a limit if and only if 7 D fits it |
| DeliveryWindow.DoneWithin | src/email/worker.rs:396-405 | with deliveries of at most D, message i of the ordered window of four and all before it are done by (i/4 + 1) D |
| DeliveryWindow.DoneExactly | src/email/worker.rs:396-405 | with deliveries of exactly D that bound is met |
| DeliveryWindow.PromptRunsAreTimely | src/email/worker.rs:65-72 | runs whose workers claim within a set-up time and deliver within D each are timely when set-up plus 7 D is at most ten minutes |
| DeliveryWindow.PromptRunsSweepNoLiveClaim | src/email/worker.rs:349-356 | no sweep in such a run touches a row a worker still holds |
| ClaimSelection.ClaimGoesByRank | src/email/worker.rs:377-394 | a due row with fewer than 25 due rows not after it is claimed, one with 25 strictly before it is not |
| ClaimSelection.ClaimedInTurn | src/email/worker.rs:377-394 | for every priority: a due unlocked row is claimed if fewer than 25 others have a smaller priority, or the same and an earlier or equal time, and left if 25 are strictly before it; nothing else is claimed, and 25 or all there are |
| ClaimSelection.DueIsClaimedNext | src/email/worker.rs:377-394 | in the interleaved protocol too whose turn it is is in the next batch, whatever its priority |
| ClaimSelection.SecurityIsClaimedNext | src/email/worker.rs:363-394 | a due security row with fewer than 25 due security rows not after it is in the next batch, whatever else is queued and even past the cap |
| ClaimSelection.CodesAreClaimedNext | src/email/outbox.rs:85-129 | the same for every one-time code, in every run, whatever priorities were given |
| ClaimSelection.ClaimExists | src/email/worker.rs:377-394 | the claim always has a result, whatever rows others have locked |
| Worker.Outbox.ProcessBatch | src/email/worker.rs:342-425 | one batch: sweep, count, then the rows whose turn it is under the limit the count gives, each as its own delivery left it; an error exactly if rows were claimed and all are still being sent, else one report for each that tells its new state |
| Worker.Outbox.SweepStaleLocks | src/email/worker.rs:349-356 | exactly the rows in sending under a lock of more than ten minutes go back to pending, their attempt still counted |
| Worker.Outbox.ClaimDue | src/email/worker.rs:377-394 | claims whose turn it is for every priority, marks just those as sending with one attempt more, and returns them by priority then id |
| Worker.Outbox.Deliver | src/email/worker.rs:450-529 | written out for each thing a delivery runs into: sent iff accepted, skipped iff opted out or without transport, failed iff the template is unknown, the refusal permanent or the tenth, else pending after the backoff; the payload is wiped iff it is a code at its end or unreadable; unrecorded it changes nothing |
| Worker.Outbox.Finish | src/email/worker.rs:534-571 | a final state is written if and only if one of three writes succeeds, once |
| Outcomes.RecordsWhatHappened | src/email/worker.rs:450-571 | in every run a recorded outcome shows, field by field, what the delivery decided before it ran into, and touches no other row |
| Worker.SettledOrStillClaimed | src/email/worker.rs:411-424 | a delivery reported as failing to record left its row as claimed; any other report matches the row's new state |
| Worker.InOrder | src/email/worker.rs:388-394 | puts the claimed rows into delivery order, each once |
| Templates.CodesRankAsSecurity | src/email/outbox.rs:85-129 | every template named like a code has the first priority |
| Templates.SensitiveIsCode | src/email/templates.rs:324-332 | the templates whose payload is wiped are exactly those named like codes |
| Templates.RanksAre | src/email/outbox.rs:85-129 | the rank of every template there may ever be: 0 for codes and named security messages, 9 for the two bulk ones, 3 for a welcome and what is about money, else 5 |
| OutboxQueue.Queue.Enqueue | src/email/outbox.rs:141-193 | the row has this message's own fields; it is dropped if and only if its mailbox had its 20, 5, 30 or 10 messages of the template in 24 hours, or it is no code and its account caused 50 |
| OutboxQueue.Queue.EnqueueMany | src/email/outbox.rs:206-256 | after the rows that were there comes one for each message in order, with its own user, mailbox, template and rank, created when its chunk of 500 was |
| OutboxQueue.AdmitsUnlessFull | src/email/outbox.rs:65-82 | the statement's two counts are the numbers of rows within 24 hours, against limits written out for every template |
| OutboxQueue.MailboxLimitHolds | src/email/outbox.rs:141-193 | in every window of 24 hours a mailbox gets no more rows of a template than its limit, in any order of times |
| OutboxQueue.AccountLimitHolds | src/email/outbox.rs:141-193 | in every window of 24 hours an account causes at most 50 rows that are no codes |
| OutboxQueue.MailboxLimitHoldsBesideBulk | src/email/outbox.rs:206-256 | rows inserted in bulk do not break the mailbox limit as long as their templates have none |
| OutboxQueue.AccountLimitHoldsWithoutBulk | src/email/outbox.rs:64-67 | without bulk inserts the account limit counts every row |
| OutboxQueue.CodesIgnoreOtherMail | src/email/outbox.rs:72-80 | whether a code is queued depends on rows of its own template alone |
| OutboxQueue.DeletingKeepsAdmitted | src/email/outbox.rs:141-193 | deleting rows breaks no limit |
| Masking.MaskEmailsIn | src/email/outbox.rs:272-297 | the character loop is split, mask word by word, and join |
| Masking.MaskingKeepsDelimiters | src/email/outbox.rs:272-297 | every delimiter stays in place and each word between is masked on its own |
| Masking.MaskingDistributes | src/email/outbox.rs:272-297 | a text cut at a delimiter can be masked in pieces |
| Masking.WordsAreSeparate | src/email/outbox.rs:287-295 | blanks, commas, semicolons, brackets and quotes, and nothing else, separate words, each of which is masked alone |
| Masking.MaskingIsIdempotent | src/email/outbox.rs:272-297 | masking twice is masking once |
| Masking.MaskingSparesPlainText | src/email/outbox.rs:272-297 | text without an @ is not touched |
| Masking.ReplaceOnce | src/email/outbox.rs:278-284 | replacing a word's bare part in it hits exactly one place |
| Masking.MaskedWord | src/email/outbox.rs:260-268 | of a word's first address everything before the first @ but one character becomes stars; the rest and the punctuation around stay |
| Masking.OneAddressPerWord | src/email/outbox.rs:272-297 | of a word whose bare part has an @ no owner is left if and only if every later @ already came after stars |
| Masking.SecondAddressShows | src/email/outbox.rs:272-297 | an address joined to another by a character that is no delimiter shows in full |
| MaskingOwners.MaskedPositions | src/email/outbox.rs:260-297 | a masked word is the word with stars for what lies between its first letter or digit and the first @ after it, and unchanged if it has no address |
| MaskingOwners.OwnerIsMasked | src/email/outbox.rs:272-297 | wherever an address stands in a text, the masked text is the one its owner's first character alone would give, if and only if the owner is that short, or holds no delimiter and is led by a letter or digit of its word with no @ in between, and one follows the @ |
| MaskingOwners.OwnerOnItsOwn | src/email/outbox.rs:272-297 | for an address that starts its word: if and only if its owner is one character, or starts with a letter or digit and holds no delimiter, and one follows the @ |
| MaskingOwners.OwnerBecomesStars | src/email/outbox.rs:260-297 | such an address becomes its owner's first character, the stars and the rest of its word, and the text around it is masked on its own |
| MaskingOwners.ApostropheShows | src/email/outbox.rs:272-297 | what stands before an apostrophe in an owner shows |
| MaskingOwners.NoLetterShows | src/email/outbox.rs:278-284 | an address whose owner has no letter or digit shows whole |
| Base64Url.DecodesExactlyItsEncoding | src/email/unsubscribe.rs:28-48 | a string decodes to some bytes if and only if it is their unpadded encoding of RFC 4648 section 5 |
| Base64Url.BytesBack | src/email/unsubscribe.rs:28-48 | bytes survive being spelt as six-bit digits |
| Base64Url.DigitsBack | src/email/unsubscribe.rs:28-48 | digits are accepted only if they spell whole bytes, and then spell them alone |
| Base64Url.EncodesBits | src/email/unsubscribe.rs:28-35 | each three bytes and their four digits are the same 24 bits, the last group filled with zeros, spelt in the URL-safe alphabet |
| Unsubscribe.ComputeToken | src/email/unsubscribe.rs:28-35 | the byte vector built in place spells 44 digits of the alphabet, which parse back to user and category unless that is locked |
| Unsubscribe.AcceptedExactly | src/email/unsubscribe.rs:37-48 | a string is accepted for a user and category if and only if it trims to their token and the category is not locked |
| Unsubscribe.TokensRoundTrip | src/email/unsubscribe.rs:28-48 | a token parses back to its user and category, and to nothing for a locked one |
| Unsubscribe.TokensDiffer | src/email/unsubscribe.rs:28-35 | no two users or categories share a token |
| Unsubscribe.TokenHolds | src/email/unsubscribe.rs:19-35 | read back a token is the user, the number of the category and the first 16 bytes of their HMAC |
| Unsubscribe.LinkCarriesToken | src/email/worker.rs:189-204 | for every base URL and locale the token read back from the link is the one put in if and only if neither holds `token=`, or the first that does has this very token there, ended by an ampersand |
| Unsubscribe.HeaderRoundTrip | src/email/worker.rs:189-204 | when neither base URL nor locale holds `token=`, the header is exactly the one-click address and the page, and its token parses back to user and category; without the API's address it is the page alone |
| ChordPro.RenderSong | src/export/chordpro.rs:69-108 | the text pushed field by field is the song's directives in order, a blank line and the lyrics (`ChordProFields.SongSays` and `ChordProLyrics.LyricsKept` say what that is) |
| ChordProFields.SongSays | src/export/chordpro.rs:69-108 | each field stands under its own name, in this order, numbers in decimals and a length in minutes and seconds; an absent or wordless one is left out |
| ChordProFields.LibrarySays | src/export/chordpro.rs:110-117 | a library is the songs' texts in order with a newline, `{new_song}` and a blank line between two |
| ChordProFields.WordsAreKept | src/export/chordpro.rs:10-28 | a value keeps its words letter by letter and in order, one space for whatever blanks, control characters and braces stand between two, up to 255 characters |
| ChordProFields.WordsAreRead | src/import/chordpro.rs:139-147 | a value read keeps its words so, too, with blanks and braces between them, at any length |
| ChordProFields.EveryValueIsWoven | src/export/chordpro.rs:10-28 | every value is words with such gaps, so that says it for all |
| ChordProLyrics.DropsOwnDirectives | src/export/chordpro.rs:38-66 | a line is dropped if and only if it is blanks, one brace or more, blanks, one of the thirteen names in any case, blanks, and then the end, a colon or a closing brace |
| ChordProLyrics.LyricsKept | src/export/chordpro.rs:38-59 | for all lyrics that are not blank: every other line is kept in its order, each as it stood between two newlines but for the return that ended it |
| ChordProLyrics.OrdinaryLyricsStay | src/export/chordpro.rs:38-59 | lyrics without a return and without such a line are exported as they are, up to their last newline |
| ChordProLyrics.NoLyricsSaid | src/export/chordpro.rs:99-106 | absent or blank lyrics are said to be none, in these words |
| ChordProFields.ImporterTakes | src/import/chordpro.rs:159-166 | the importer takes a line for a directive if and only if it is one brace, a name, perhaps a colon and a value, and one brace, blanks aside, and then for this one |
| ChordProReading.LibrarySplitsBack | src/export/chordpro.rs:38-117 | a library split at its song starts is exactly its songs in order, for every reader that takes the separator for a start and nothing that names none |
| ChordProReading.SongIsQuiet | src/export/chordpro.rs:38-108 | no line a song is written as starts another one |
| ChordProReading.ValueIsPlain | src/export/chordpro.rs:10-28 | a directive value has at most 255 characters, no control character, no brace, and single spaces inside |
| ChordProReading.BodySurvives | src/export/chordpro.rs:38-66 | no line of the lyrics as written reads as a directive the export writes itself |
| ChordProImport.MetadataIsTheFields | src/export/chordpro.rs:63-108 | of the exported text as the importer normalises and cleans it, the values read for a directive name are the song's own, once each, if and only if no line of the lyrics that the export lets through hides one of that name |
| ChordProImport.ImporterMeets | src/import/chordpro.rs:299-366 | what the importer reads in an exported song, in order: each of the song's own directives, then those its lyrics hide |
| ChordProImport.ReadsBackExactly | src/import/chordpro.rs:114-147 | a written value reads back unchanged, but for a space truncation left at its end, if and only if it is normalised and holds no invisible character |
| ChordProNumbers.TempoBack | src/import/chordpro.rs:213-219 | of all 32-bit tempos those from 1 to 500 come back from their directive as they were, and no other is read |
| ChordProNumbers.CapoBack | src/import/chordpro.rs:222-228 | so do capos from 0 to 11 |
| ChordProNumbers.DurationBack | src/import/chordpro.rs:231-255 | so do durations from one second to two hours, written as minutes and seconds |
| ChordProImport.ImporterReadsNoMore | src/import/chordpro.rs:159-166 | a name of letters, digits and underscores that the importer reads off a cleaned line is the one the export's looser reading gives |
| ChordProImport.CleanLineStartsAgree | src/import/chordpro.rs:346-366 | off a line already clean and normalised the importer takes no song start the export does not, so it splits a library of such lines back |
| ChordProImport.SpacedTwice | src/import/chordpro.rs:139-147 | a written value keeps its spacing when read, but for a space truncation left at its end |
| ChordProHidden.ImporterCountsSongs | src/import/chordpro.rs:114-136 | the importer meets one start for each separator of a library and one for each hidden in lyrics, no others |
| ChordProHidden.HidesByPieces | src/import/chordpro.rs:114-136 | a line of lyrics hides a directive if and only if one of the pieces between its carriage returns is one once normalised and cleaned |
| ChordProHidden.HarmlessHidesNothing | src/export/chordpro.rs:38-59 | a line the export lets through and cleaning leaves alone but for tabs hides none that the export writes |
| ChordProHidden.OneSongIsTaken | src/import/chordpro.rs:346-366 | the importer refuses an exported song as several exactly as its lyrics make it; with a title of its own, if and only if a line of the lyrics hides a song start or a title |
| ChordProHidden.LibraryStarts | src/import/chordpro.rs:346-366 | a library gives the importer one start between two songs and no more, if and only if no lyrics hide one |
| ChordProHidden.TameLyricsHideNothing | src/export/chordpro.rs:38-59 | lyrics of ordinary characters, tabs and line ends hide no directive the export writes |
| ChordProHidden.LoneReturnStartsASong | src/import/chordpro.rs:124-134 | lyrics with a lone carriage return before the separator start a song |
| ChordProHidden.InvisibleAddsATitle | src/import/chordpro.rs:106-134 | a title behind an invisible character makes the importer refuse the exported song as several |
| SuggestionRows.OwnVoteHasNoSay | src/database/repositories/suggestion_repository.rs:225-263 | the suggester's vote, and that of somebody who left, never decide |
| SuggestionRows.VotesDecide | src/models/suggestion.rs:242-247 | the votes accept if and only if there is a positive threshold and at least that many members other than the suggester voted for, more than any that voted against |
| SuggestionRows.VotesPullTheirWay | src/database/repositories/suggestion_repository.rs:225-263 | a vote for the song never undoes that and one against it never brings it about |
| Acceptance.OneClosingWins | src/controllers/suggestion.rs:91-131 | in every interleaving a suggestion is closed just when one attempt holds it, the only one, and status, resolver and note are that attempt's |
| Acceptance.FailedAcceptanceLeavesNoTrace | src/controllers/suggestion.rs:121-126 | an undone acceptance leaves the row as the claim found it, but for when it was last touched |
| AcceptedSongs.AcceptedMeansLinked | src/controllers/suggestion.rs:105-181 | at rest an accepted suggestion's song or the band's copy was in the target setlist at a moment after the claim of the attempt that accepted it |
| AcceptedSongs.EndedAt | src/controllers/suggestion.rs:161-179 | a request on a setlist that is done had its song in that setlist at some moment since it began |
| AcceptedSongs.OnlyItsHolderMovesIt | src/controllers/suggestion.rs:115-131 | while the attempt that closed a suggestion takes no step, nobody opens, closes or changes it: what a dying process claimed stays accepted |
| Acceptance.OneNoticeAndItIsFinal | src/controllers/suggestion.rs:67-91 | a suggester is told at most once, never of what they closed themselves, and what they are told stays true |
| Acceptance.ReopenRestores | src/database/repositories/suggestion_repository.rs:313-325 | opening again writes back exactly what closing overwrote |
| StrandedAcceptance.UndoingFails | src/controllers/suggestion.rs:121-126 | a run at whose end a suggestion is accepted, nothing is under way, and no setlist ever had its song |
| StrandedAcceptance.ClaimDies | src/controllers/suggestion.rs:115-131 | a run up to a claim whose song is in no setlist, such that in whatever goes on without that attempt the suggestion stays accepted |
| Closings.AcceptanceEnds | src/controllers/suggestion.rs:67-181 | undisturbed, an acceptance of an open suggestion whose song the setlist may take closes it, has the song or the band's copy in the setlist, and tells the suggester |
| Closings.RejectionEnds | src/controllers/suggestion.rs:475-506 | undisturbed, a rejection closes an open suggestion, and tells the suggester unless they did it |
| Closings.WithdrawalEnds | src/controllers/suggestion.rs:520-541 | the suggester takes it back and nobody is told; anybody else is refused and changes nothing |
| Closings.TooLate | src/controllers/suggestion.rs:105-131 | an attempt to close what is closed already changes nothing |
| Closings.VoteAsks | src/controllers/suggestion.rs:355-385 | a vote is counted in and asks for acceptance exactly if the votes then carry the song |
| Suggestions.Band.Accept | src/controllers/suggestion.rs:105-131 | one acceptance: refused, done with the song in the setlist and the suggester told, or undone |
| Suggestions.Band.AddSuggestedSong | src/controllers/suggestion.rs:135-181 | puts the song or the copy in the setlist, loses no link, and done again changes nothing |
| Suggestions.Band.Reject | src/controllers/suggestion.rs:475-506 | closes an open suggestion once and tells the suggester |
| Suggestions.Band.Withdraw | src/controllers/suggestion.rs:520-541 | only the suggester closes it so, and nobody is told |
| Suggestions.Band.Vote | src/controllers/suggestion.rs:355-385 | replaces the vote; accepts exactly if the other members' votes for the song are then at least a positive threshold and more than those against, and the song can be added; then it is in the setlist |
| Closings.VoteTakenBack | src/database/repositories/suggestion_repository.rs:265-285 | taking a vote back undoes it, whatever was voted before |
| OneShot.ChallengeIsOneShot | src/controllers/auth.rs:341-393 | in every interleaving at most five codes are checked against a challenge and one session issued |
| OneShot.CodeIsOneShot | src/controllers/auth.rs:730-760 | a reset code takes at most five wrong guesses and changes the password once at most |
| OneShot.OnlyWrongCodesCost | src/services/account.rs:537-579 | at rest an unconsumed secret has lost one attempt for each wrong code and none for a weak password, and has one left |
| OneShot.RunKeepsInv | src/database/repositories/security_repository.rs:434-472 | attempts are wrong codes plus those on their way, in every reachable state |
| OneShot.ServedWasRight | src/controllers/auth.rs:341-432 | in every interleaving whoever got a session or changed the password had taken an attempt of an unspent, unexpired secret, then given the right code, then for a password a good one |
| OneShot.RightCodeServes | src/services/account.rs:537-579 | undisturbed, a right code for an unspent, unexpired secret with an attempt left gets what it is for |
| Auth.Secret.LoginTwoFactor | src/controllers/auth.rs:290-432 | a session just when the challenge is live, nothing else is in the way and the code matches; the fifth wrong code spends it |
| Auth.Secret.ResetPassword | src/controllers/auth.rs:723-760 | a weak password leaves the code as it was, and every failure of the code answers the same |
| Auth.Secret.CheckCode | src/services/account.rs:537-579 | claims before it compares, and records a wrong code once |
| PdfLimiter.PermitsAreConserved | src/export/limiter.rs:98-127 | free permits and held ones make up the limit in every reachable state, and no more renders run than that |
| PdfLimiter.EachPermitReturnsOnce | src/export/limiter.rs:98-127 | a permit is taken once and returned once, when its holder is done |
| PdfLimiter.AbortFreesNoSlot | src/export/limiter.rs:98-127 | whatever happens to the request, a render keeps its slot until it ends |
| PdfLimiter.BusyAfterTheWholeWait | src/export/limiter.rs:110-117 | who is told all slots are busy waited the whole time and took none |
| PdfLimiter.WaitingGoesOn | src/export/limiter.rs:98-127 | who waits may have a slot if and only if fewer than the limit are held, and may be told busy only after the whole wait; with a slot the render begins, ends, is answered and frees it |
| PdfLimiter.FitsExactly | src/export/limiter.rs:71-96 | a PDF fits if and only if it has at most 200 items and, with lyrics, they add up to at most 250 000 characters |
| PdfLimiter.LessFits | src/export/limiter.rs:71-96 | what fits still fits with an item or the lyrics left out, in any order |
| SetlistScope.SetlistsStayInScope | src/controllers/setlist.rs:537-604 | in every interleaving a setlist holds songs of its own band or personal ones only, none twice, a band has one live copy of a song, and plays nothing outside its repertoire |
| SetlistScope.SameCopyUntilTrashed | src/controllers/setlist.rs:1355-1407 | a band and a song always resolve to the same copy until the band trashes it |
| SetlistScope.DoneMeansLinked | src/controllers/setlist.rs:537-588 | a request that succeeded did link the song or the band's copy of it |
| SetlistScope.SeenWasThere | src/database/repositories/setlist_repository.rs:1058-1114 | what is remembered as linked was linked at some moment |
| SetlistScope.AddSongSound | src/database/repositories/setlist_repository.rs:1058-1114 | adding a song keeps every rule of the library |
| SetlistScope.CopySound | src/database/repositories/song_repository.rs:810-893 | so does making the band's copy, which is live afterwards |
| SetlistScope.TrashSound | src/database/repositories/song_repository.rs:618-647 | so does trashing a song, which adds no link |
| SetlistScope.RestoreSound | src/database/repositories/trash_repository.rs:312-330 | so does restoring one, refused while another live copy exists |
| SetlistScope.RestoresExactly | src/database/repositories/trash_repository.rs:312-330 | what is in the trash may come back exactly if no other live song is the band's copy of the same source |
| BandLibrary.TrashLetsGo | src/database/repositories/song_repository.rs:618-647 | trashing takes a personal song out of the personal setlists of others, and out of no other |
| BandLibrary.WithoutOne | src/controllers/setlist.rs:667-720 | what is left of a setlist keeps its order |
| Undisturbed.RequestEnds | src/controllers/setlist.rs:512-604 | an undisturbed request whose setlist may take its song ends with the song, or the band's copy, in it; adding what is there is refused, accepting it done |
| Undisturbed.Refuses | src/controllers/setlist.rs:512-604 | one whose setlist may not take it is refused and changes nothing |
| Setlists.Store.AddSongToSetlist | src/controllers/setlist.rs:512-604 | adds the right song behind all others, and to the repertoire; every other setlist stays; refuses, changing nothing, what is there already or not the setlist's to take |
| Setlists.Store.BandSongFor | src/controllers/setlist.rs:1355-1407 | the band's own song, the copy it has, or a new one exactly when it has none |
| Setlists.Store.RemoveSongFromSetlist | src/controllers/setlist.rs:667-720 | unlinks from a setlist, the rest in its order; from the repertoire it trashes the song and leaves links |
| Setlists.EnsureDistinct | src/controllers/setlist.rs:1302-1312 | accepts exactly the orders that name nothing twice |
| TourExport.ExportTour | src/controllers/shared_file.rs:232-266 | the memoised loop gives what asking for every gig's setlist gives, and asks once for each, at its first gig |
| TourExport.Resolve | src/controllers/shared_file.rs:249-261 | a gig's setlist is there exactly if exportable, whoever asked before |
| TourExport.FileIsWhole | src/controllers/shared_file.rs:232-266 | each setlist once, there just when a gig of the file refers to it; each gig with its setlist exactly if exportable |
| TourExport.FailsExactly | src/controllers/shared_file.rs:232-266 | the export fails if and only if asking for some gig's setlist does |
| TourExport.FirstsInOrder | src/controllers/shared_file.rs:249-261 | setlists come in the order of their first gigs |
| TourExport.GigsKeepTheOrder | src/controllers/shared_file.rs:236-248 | every readable gig, in the tour's order |

## Left out

- SQL isolation: each statement or transaction is one atomic step, and skipping
  locked rows is a set of rows the claim does not see.
- One clock for all instances; a worker's reading of it is never in the future.
- SMTP, pools, message building and rendering: a delivery is accepted, refused
  for good or for now, or has no transport; how long it takes is a parameter.
- An outcome written whose acknowledgement was lost counts as written and then
  written again by the next try with the same state.
- Staff retrying or cancelling outbox rows, and cleaning them up, while workers run
  (`src/database/repositories/email_admin_repository.rs`).
- The text kept with a failure (`last_error`), and trimming an address on queueing.
- The canonical form of a mailbox is given, not computed.
- HMAC is any function with 32-byte results, and what counts as a letter or digit
  any predicate false of `@` and the delimiters: nothing cryptographic is claimed.
- Unicode normalisation is not computed: it is any function that cuts a text at line
  ends, spaces and braces, spares ASCII and invisible characters, brings in no
  control, invisible or brace character, keeps words words, and makes no line look
  like a directive that has no Kelvin sign (`Normalization.IsNormalizer`).
- ChordProImport.Sanitized: counts the two characters of `\r\n` as two line ends;
  the blank line between them holds no directive.
- The importer's refusals of NUL characters and of too long texts and lines, its
  warnings, and what it makes of lyrics and chords.
- Worker.Outbox.ProcessBatch: deliveries settle one after another and nobody else
  writes meanwhile; errors before the claim are absent. `WorkerProtocol` has the
  interleavings.
- Integer widths of song fields, seconds and counts: unbounded here, but for numbers
  read back.
- Permissions, quotas, the daily cap of suggestions, and the daily cap of wrong
  codes across fresh ones: parameters of the handlers, or absent from the runs.
- Bringing an existing band copy up to date, keys, positions with markers, held
  snapshots, artists and tags.
- Permanent deletion of songs, setlists, bands and accounts.
- Setlist songs written by duplicating, importing or reordering setlists.
- PdfLimiter.PermitsAreConserved: waiting requests are served in any order, not
  only first come first served.
- AcceptedSongs.AcceptedMeansLinked: one direction; after a failed undo or a death
  the song may or may not be there, and any member may take it out again later.
- DeliveryWindow.PromptRunsAreTimely: assumes a bound on each delivery, although
  waiting for the transport lies outside the send timeout.
- ClaimSafety.FinalStatesAreFinal: assumes a timely run, without which it is false
  (`LateOutcome.FinalityNeedsTheLock`).
- TourExport.ExportTour: what may be exported does not change during the loop.
- Templates, wording, PDF layout, billing, audit entries, logging and plain CRUD.
