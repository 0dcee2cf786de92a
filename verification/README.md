# Rigflow: verified models of its protocols, parsers and estimators

Rigflow is a networked amateur-radio station: a server owns the radio, a client shows and controls it,
and a logging library keeps the contacts. This project models the parts of it that keep state, parse or
compute, and proves what they promise over every input, every run and every order of arrival.

* **CW** (`Morse`, `CwText`, `CwSend`, `CwDecode`, `CwRoundTrip`): the sender's timed schedule and keying
  loop, and the receiver's adaptive block-by-block state machine. They are inverses for every text, while
  the receiver's speed estimate still adapts, exactly when that estimate starts above half and at most one
  and a half dot lengths. Code and spacing are those of Recommendation ITU-R M.1677-1, Annex 1, Part I,
  sections 1 and 2.
* **ADIF and the contact record** (`Decimal`, `Ordering`, `Adif`, `AdifRoundTrip`, `AdifGrammar`, `Normalize`,
  `NormalizeLaws`, `Model`, `QsoRecord`): parser, writer and column mapping of the ADI format of ADIF 3.1.6,
  with round trips in both directions and the exact conditions for them, and documents as other programs
  write them.
* **The log** (`Dedupe`, `TimeText`, `LogStore`, `StoreHistory`, `Import`, `ImportLaws`, `ImportConfirmations`):
  contact tables, append-only journal, and the two-phase import with window deduplication, bucket index and
  confirmation tracking.
* **The control task** (`ControlTask`, `ControlLaws`, `ControlHistory`, `ControlLiveness`): connect, drop,
  backoff, automatic reconnect and re-acquire, busy give-up. One event per arm of the loop, with the clock
  reading it acts on.
* **Audio and clocks** (`Resampler`, `ClockOffset`, `ClockHistory`, `Calendar`, `Timestamp`): the streaming
  resampler and its ring, the clock-offset estimator, days to dates and file-name time stamps.
* **Small protocols** (`HtmlEntities`, `QrzPaging`, `QrzLaws`, `QrzOutcome`, `Waterfall`, `WaterfallLaws`,
  `WaterfallHistory`, `ExportWorker`, `ExportLaws`, `Cluster`, `ClusterLaws`): paged download, chunked
  waterfall rows from the server's split to the client's reassembly, the coalescing background worker, the
  spot book and its line reader. Each gives the same answer whatever the order, splitting or batching.

Code that changes state step by step is modelled by classes and loops; each method is tied to a function
on values, and the laws are proved about those functions and about whole runs of them. The `History`
modules read the state of a run off its events: every variable is what the last event that bears on it made
it. `Wrappers.dfy` holds the shared Option and Result types and Rust's text helpers.

Where the code is weaker than its comments suggest, the exact condition is proved, and for most of them an
input that fails: `CopiesEveryTextIff` (with `Misread`), `ReimportIff` (`BlankBreaksReimport`),
`AcceptedAgainIff` (`StuckBelow64`), `RepeatsAreHarmlessIff` (`RepeatedChunkCompletesRow`, `LargeRowsBreak`),
`OutOfRangeIff` (`EmptyFieldAtEnd`). `QsoRoundTripIff`, `FetchIsCompleteIff` and `StaysIff` are conditions without
a separate failing input; a clock that breaks `StaysIff` would have to run backwards.

## Model

| member | source | states |
|---|---|---|
| Morse.DecodeInvertsEncode | rigflow-client/src/cw_decode.rs:94-140 | every character the sender can key has a nonempty pattern of dots and dashes that the decoder's table turns back into that character in upper case |
| Morse.EncodeInvertsDecode | rigflow-client/src/cw_text.rs:30-80 | no pattern decodes to a character the sender would key differently: the two tables are mutually inverse |
| Morse.LettersFollowTree | rigflow-client/src/cw_decode.rs:94-140 | the patterns of up to four marks decode to the letters of the code tree, branch by branch, and to nothing where it has none |
| Morse.LowDigitsCount | rigflow-client/src/cw_decode.rs:94-140 | a digit from 1 to 5 is so many dots, filled up to five marks with dashes |
| Morse.HighDigitsCount | rigflow-client/src/cw_decode.rs:94-140 | from 6 to 9, and for 0 as ten, it is the dashes in front that count |
| CwText.EncodeSchedule | rigflow-client/src/cw_text.rs:83-120 | the nested loops yield the schedule built from the text's structure: 1 or 3 units down, 1, 3, 7 or (at the end) 0 units up, unknown characters and empty words left out |
| CwText.ScheduleWord | rigflow-client/src/cw_text.rs:100-118 | the loops over one word append exactly that word's elements, with the gap behind the last one set by whether another word follows |
| CwText.SpeedIsWordsPerMinute | rigflow-client/src/cw_text.rs:83-120 | for every setting the word PARIS with the gap behind it takes exactly the part of a minute that the nearest speed from 5 to 50 says |
| CwSend.InterruptibleSleep | rigflow-client/src/cw_text.rs:180-192 | the sliced sleep ends when and how the specification of a cut-off sleep says |
| CwSend.SleepIsExact | rigflow-client/src/cw_text.rs:180-192 | an uncut sleep lasts exactly as long as asked; a cut one ends not before the flag was set and less than one 5 ms slice after it |
| CwSend.KeySchedule | rigflow-client/src/cw_text.rs:144-174 | the keying loop with its three exits and the safety key-up sends exactly the events of the element-by-element specification |
| CwSend.SendText | rigflow-client/src/cw_text.rs:129-176 | encoding and keying a text sends the events of its schedule from time 0 on |
| CwSend.KeyIsReleased | rigflow-client/src/cw_text.rs:146-171 | whenever the abort flag is set, key-downs and key-ups alternate and the last event is a key-up |
| CwSend.KeysTheSchedule | rigflow-client/src/cw_text.rs:146-165 | without an abort the key goes down and up at exactly the times the schedule means |
| CwSend.AbortIsPrompt | rigflow-client/src/cw_text.rs:146-192 | an abort keeps exactly the events before it, keys nothing afterwards, and releases a key that is down less than one slice later |
| CwDecode.CwDecodeShared.Push | rigflow-client/src/cw_decode.rs:80-89 | a pushed character is appended and the newest 4000 characters remain |
| CwDecode.CwDecoder.Process | rigflow-client/src/cw_decode.rs:191-211 | switching on resets the runtime and seeds the estimate from the speed setting; then the state and the shared text follow the run over the blocks, and a disabled decoder changes nothing |
| CwDecode.CwDecoder.Feed | rigflow-client/src/cw_decode.rs:203-211 | the block loop carries the state of the run and the newest 4000 characters of everything pushed |
| CwDecode.CwDecoder.ProcessBlock | rigflow-client/src/cw_decode.rs:240-272 | one detection block is one step: switch of tone, elapsed time, gap check |
| CwDecode.CwDecoder.ClassifyKeydown | rigflow-client/src/cw_decode.rs:292-306 | a key-down below two estimated dots adds a dot, a longer one a dash, and both adapt the estimate |
| CwDecode.CwDecoder.AdaptDit | rigflow-client/src/cw_decode.rs:308-313 | the estimate moves a fifth of the way, stays within 24..240 ms, and the shown speed is derived from it |
| CwDecode.CwDecoder.CheckOffGaps | rigflow-client/src/cw_decode.rs:315-329 | a gap of two dots flushes the pending character once, one of five dots a space once |
| CwDecode.CwDecoder.ResetRuntime | rigflow-client/src/cw_decode.rs:214-222 | reset leaves the idle state with the current estimate |
| CwDecode.RunAppend | rigflow-client/src/cw_decode.rs:203-272 | feeding blocks in two portions is feeding them in one |
| CwRoundTrip.RunOff | rigflow-client/src/cw_decode.rs:315-329 | a run of silent blocks of any length acts like one look at the whole gap |
| CwRoundTrip.ElementRun | rigflow-client/src/cw_decode.rs:240-329 | one keyed element and its gap are heard as that element, followed by nothing, the finished character, or the character and a space, as the gap is 1, 3 or at least 7 units |
| CwRoundTrip.CharRun | rigflow-client/src/cw_decode.rs:240-329 | the elements of one character are heard as the character their whole symbol decodes to |
| CwRoundTrip.PatternRun | rigflow-client/src/cw_decode.rs:292-329 | any pattern of dots and dashes, keyed in the band, is pushed as the character the table has for it and as a question mark otherwise, with a space behind it exactly when the gap is a word gap |
| CwRoundTrip.PatternsRun | rigflow-client/src/cw_decode.rs:225-329 | words of any patterns are pushed with one character for each pattern, none dropped, and one space behind each word |
| CwRoundTrip.SilencePushesNothing | rigflow-client/src/cw_decode.rs:214-222 | after a reset silence of any length pushes nothing |
| CwRoundTrip.ClampIsNearest | rigflow-client/src/cw_decode.rs:308-313 | the clamped dot estimate is the nearest one within 24 to 240 ms |
| CwRoundTrip.SpeedIsNearest | rigflow-client/src/cw_decode.rs:308-313 | the speed shown differs from 1200 divided by the estimate by at most one half |
| CwRoundTrip.ConvergedShrinks | rigflow-client/src/cw_decode.rs:308-313 | each element reduces the signed error of the dot estimate to exactly four fifths and never leaves the band |
| CwRoundTrip.TextRun | rigflow-client/src/cw_decode.rs:225-329 | a whole text is heard letter by letter with one space behind each word, and the estimate ends where its number of elements brings it |
| CwRoundTrip.TranscriptSpells | rigflow-client/src/cw_text.rs:91-98 | the letters of the sender's word list are the upper-cased text without unknown characters, one space behind each word that keeps one |
| CwRoundTrip.RoundTrip | rigflow-client/src/cw_text.rs:83-120 | for every text, speed, whole number of blocks per dot and in-band starting estimate, keying the schedule plus a word gap of silence makes the decoder push exactly that transcript |
| CwRoundTrip.Misread | rigflow-client/src/cw_decode.rs:292-306 | outside the band a single E or T is already copied wrongly |
| CwRoundTrip.CopiesEveryTextIff | rigflow-client/src/cw_decode.rs:292-329 | every text is copied if and only if the starting estimate is above half and at most one and a half of the sender's dot |
| CwRoundTrip.SeedCopiesIff | rigflow-client/src/cw_decode.rs:191-203 | in speeds: a decoder seeded at s words per minute copies every text sent at w exactly when s < 2w and 2w <= 3s |
| Decimal.ParseU64OfDec | rigflow-log/src/adif.rs:105-125 | every machine-word length written in decimal parses back |
| Adif.CutMeaning | rigflow-log/src/adif.rs:118-135 | a byte length is on a character boundary exactly behind a prefix of that many UTF-8 bytes, and truncated exactly when bytes run out |
| Adif.ParseAdif | rigflow-log/src/adif.rs:75-143 | the loop over position, current record and finished records returns what the recursive reading of the text returns, and terminates on every text |
| Adif.HandleTag | rigflow-log/src/adif.rs:85-135 | one tag ends the header, closes a record, stops at the LoTW end mark, takes a field of its byte length, or fails with the matching error |
| AdifGrammar.TypedFieldParses | rigflow-log/src/adif.rs:85-135 | a field with blanks around its name and its length, in any letter case and with a type indicator or none, holds exactly the bytes it declares, and parsing goes on behind them |
| AdifGrammar.RecordEndParses | rigflow-log/src/adif.rs:96-110 | an end-of-record tag in any letter case, with or without further parts, closes the record and drops an empty one |
| AdifGrammar.HeaderEndParses | rigflow-log/src/adif.rs:96-105 | an end-of-header tag drops the fields read before it and keeps the finished records |
| AdifGrammar.FileEndParses | rigflow-log/src/adif.rs:96-142 | the LoTW end mark in any letter case ends the document whatever follows; an open record counts only behind other records |
| AdifGrammar.CommentParses | rigflow-log/src/adif.rs:81-86 | text in front of a tag changes nothing |
| AdifGrammar.EndParses | rigflow-log/src/adif.rs:137-142 | at the end of the text an open record counts only behind other records |
| AdifGrammar.DocumentMeaning | rigflow-log/src/adif.rs:75-143 | every document made of comments, fields and end marks is read as the records it stands for |
| AdifGrammar.UnterminatedRefused | rigflow-log/src/adif.rs:87-92 | a tag that is never closed refuses the document |
| AdifGrammar.MissingLengthRefused | rigflow-log/src/adif.rs:96-115 | a field without a length refuses the document, by name |
| AdifGrammar.BadLengthRefused | rigflow-log/src/adif.rs:116-120 | a length that is no machine word in decimal refuses the document, by name |
| AdifGrammar.WrongLengthRefused | rigflow-log/src/adif.rs:121-131 | a length that no prefix of the rest has refuses the document: as truncated, with both byte counts, when bytes run out, and as no text when it ends inside a character |
| Adif.WriteRecordLoop | rigflow-log/src/adif.rs:197-205 | the writer emits the fields in name order with their byte lengths, then the end-of-record tag |
| AdifRoundTrip.FieldParses | rigflow-log/src/adif.rs:170-172 | a written field parses as exactly its value, whatever markup the value contains, and parsing goes on behind it |
| AdifRoundTrip.RecordParses | rigflow-log/src/adif.rs:197-205 | a written record parses as that record, and parsing goes on behind it |
| AdifRoundTrip.ParsedIsWritable | rigflow-log/src/adif.rs:75-143 | every record the parser returns has at least one field, well-formed names and representable lengths |
| AdifRoundTrip.DocumentRoundTrip | rigflow-log/src/adif.rs:75-205 | for every text that parses, writing its records and parsing again returns exactly those records |
| AdifRoundTrip.WrittenParsesIff | rigflow-log/src/adif.rs:170-205 | any list of records survives writing and parsing if and only if each could have come from a document |
| AdifRoundTrip.HeaderParses | rigflow-log/src/adif.rs:160-162 | the journal header in front of a document leaves no field behind |
| Normalize.NormalizeModeIdempotent | rigflow-log/src/normalize.rs:113-134 | a normalized mode and submode normalize to themselves, and the mode carries no outer whitespace |
| Normalize.CanonicalBandIdempotent | rigflow-log/src/normalize.rs:68-71 | a canonical band name is found under its own spelling |
| Normalize.BandForFreqIsCanonical | rigflow-log/src/normalize.rs:43-48 | a band derived from a frequency is spelled canonically |
| NormalizeLaws.BandForFreqIff | rigflow-log/src/normalize.rs:43-48 | a frequency has the band it lies in, both ends included, and none outside every band |
| NormalizeLaws.CanonicalBandIff | rigflow-log/src/normalize.rs:68-71 | a band is known exactly when its trimmed text is a table name in some letter case, and then takes that name |
| NormalizeLaws.ModeMeaning | rigflow-log/src/normalize.rs:113-134 | a written submode is kept, else one in the mode field is moved; a known parent becomes the mode, otherwise the alias of what was written does |
| NormalizeLaws.NormalizedMeaning | rigflow-log/src/model.rs:99-129 | only mode, submode and the two bands change: a blank band comes from the frequency, a known one takes the table name, an unknown one stays, each direction by itself |
| Model.NormalizeFields | rigflow-log/src/model.rs:99-129 | the field-by-field rewriting yields the normalized contact |
| Model.NormalizeIdempotent | rigflow-log/src/model.rs:99-129 | normalizing twice is normalizing once, for every contact |
| Model.FillMissing | rigflow-log/src/store.rs:525-531 | a station's fields are added only where the contact has none of that name |
| StoreHistory.SnapshotFillsIn | rigflow-log/src/store.rs:525-531 | a stored contact keeps every column and every extra field it brought, and has exactly those station fields besides that it lacked |
| StoreHistory.StationFieldIff | rigflow-log/src/model.rs:37-61 | a station gives a name a value exactly when it is the trimmed text of the field that name stands for, and not blank |
| QsoRecord.FrequencyRoundTrip | rigflow-log/src/adif.rs:280-292 | every 64-bit number of Hz written in MHz reads back as itself |
| QsoRecord.MhzMeaning | rigflow-log/src/adif.rs:280-282 | a frequency is written as whole megahertz, a point and exactly six digits that together count its hertz |
| QsoRecord.ReadsNearestHz | rigflow-log/src/adif.rs:286-292 | any plain decimal number of megahertz between blanks is read as the nearest number of hertz, halves upward, while it fits |
| QsoRecord.NegativeIsRefused | rigflow-log/src/adif.rs:286-292 | a negative number of megahertz is no frequency |
| QsoRecord.ReadsExponent | rigflow-log/src/adif.rs:286-292 | an exponent behind the number, in either letter case, scales it by that power of ten |
| QsoRecord.WordsSaturate | rigflow-log/src/adif.rs:286-292 | infinity in words is the largest frequency, no number is 0, and a negative infinity is no frequency |
| QsoRecord.QsoToRecord | rigflow-log/src/adif.rs:210-248 | the inserts in source order yield the record in which columns win over extra fields |
| QsoRecord.TextColumns | rigflow-log/src/adif.rs:210-277 | call, date, time, band and mode stand under their ADIF names and are read back, an absent band as the empty one |
| QsoRecord.OptionalColumns | rigflow-log/src/adif.rs:210-277 | submode, reports and grid stand under their ADIF names when present; a receive band only beside a receive frequency |
| QsoRecord.NumberColumns | rigflow-log/src/adif.rs:210-277 | both frequencies and the DXCC number are read back from their fields |
| QsoRecord.RecordKeepsQso | rigflow-log/src/adif.rs:210-277 | with extra fields apart from the columns, a contact comes back except for a receive band without frequency |
| QsoRecord.QsoRoundTripIff | rigflow-log/src/adif.rs:210-277 | a contact survives if and only if its extra fields avoid the column names and a receive band has its frequency |
| QsoRecord.RecordProjection | rigflow-log/src/adif.rs:210-277 | reading any record and writing it again settles it: a second time changes nothing |
| Dedupe.KeysAgree | rigflow-log/src/dedupe.rs:28-30 | on contacts without stray whitespace the planner's key, the database query and the natural-key test are one relation |
| Dedupe.NaturalKeyIff | rigflow-log/src/dedupe.rs:28-30 | letter case and blanks around the second call do not matter to the natural key, everything else in it does |
| ImportLaws.DbDuplicatesAreDuplicates | rigflow-log/src/import.rs:175-193 | on a log without stray whitespace the database query finds exactly the stored contacts that count as duplicates |
| Dedupe.WindowSymmetric | rigflow-log/src/dedupe.rs:35-43 | the time window does not depend on the order of the two contacts |
| Dedupe.WindowReflexive | rigflow-log/src/dedupe.rs:35-43 | a contact lies in its own window exactly when its time can be read |
| TimeText.TimesRead | rigflow-log/src/dedupe.rs:18-25 | eight digits and four or six, between any blanks, are read as seconds since 1970 exactly when they name a date of the calendar and a time of day |
| TimeText.StampReadsBack | rigflow-log/src/dedupe.rs:18-25 | every second of the years up to 9999, taken apart into date and time fields and written in digits, is read back as itself |
| LogStore.Store.Insert | rigflow-log/src/store.rs:149-170 | one contact gets the next id and the station snapshot; the commit stands whatever happens to the journal, which is reported |
| LogStore.Store.CommitImport | rigflow-log/src/store.rs:195-235 | contacts and confirmations land together or not at all, then the contacts reach the journal in one append |
| LogStore.Store.StageRows | rigflow-log/src/store.rs:214-217 | the loop adds the contacts in order with ascending ids |
| LogStore.Store.StageConfirmations | rigflow-log/src/store.rs:218-220 | it succeeds exactly when every confirmation names a stored contact, and then all are recorded |
| LogStore.Store.RecordConfirmation | rigflow-log/src/store.rs:538-549 | an upsert on contact and service that keeps an upload date |
| LogStore.Store.AppendJournal | rigflow-log/src/store.rs:499-519 | earlier bytes stay; the header is written with the first append only; failures of opening and of syncing are told apart |
| LogStore.Store.Render | rigflow-log/src/store.rs:508-515 | the appended text is the header, if the file is new, and every record in order |
| LogStore.DeleteRemovesExactly | rigflow-log/src/store.rs:247-250 | a delete takes exactly the contacts and service rows of its id, keeps everything else and the journal, leaves a valid log, and a second one changes nothing |
| LogStore.Store.UpdateQso | rigflow-log/src/store.rs:260-289 | the row with that id is replaced by the normalized contact, everything else stays |
| LogStore.Store.MarkUploaded | rigflow-log/src/store.rs:462-477 | all contacts are stamped or none, and recorded confirmations stay |
| StoreHistory.HistoryDecides | rigflow-log/src/store.rs:149-549 | after any run from an empty store, under every id stands the contact last added or edited there, every upload date is that of the last successful upload that named its contact and service, and every confirmation date that of the last committed confirmation that did; a delete forgets all three |
| StoreHistory.CommitsExactly | rigflow-log/src/store.rs:195-235 | a commit that confirms an unknown contact changes nothing; any other puts its contacts last, in order, under ids above every stored one |
| StoreHistory.InsertsExactly | rigflow-log/src/store.rs:149-170 | one contact comes last, under an id above every stored one, and no service row changes |
| StoreHistory.UpdatesExactly | rigflow-log/src/store.rs:260-289 | an edit puts the normalized contact at its id and leaves every other row, every date and the journal |
| StoreHistory.ConfirmAllSets | rigflow-log/src/store.rs:538-549 | recording confirmations leaves every upload date, and every confirmation date but those named, which become the last one given |
| StoreHistory.UploadSets | rigflow-log/src/store.rs:462-477 | an upload stamps exactly the contacts it lists, for its service, and leaves every confirmation date |
| StoreHistory.ReportIsHonest | rigflow-log/src/store.rs:499-519 | an append is reported as successful exactly when nothing was to be written or every record stands behind the earlier bytes and was synced |
| LogStore.JournalOnlyGrows | rigflow-log/src/store.rs:499-519 | no operation rewrites journal bytes: the old text is a prefix of the new |
| LogStore.JournalFaithful | rigflow-log/src/store.rs:149-235 | after any run the journal is absent or parses to exactly the snapshotted contacts whose appends reached it, in logging order, if and only if their field names could come from a document |
| LogStore.JournalMirrorsRows | rigflow-log/src/store.rs:149-235 | until something is deleted or edited the journal lists exactly the stored contacts in id order |
| LogStore.ApplyKeepsValid | rigflow-log/src/store.rs:149-289 | every operation keeps ids ascending and every service row attached to a contact |
| LogStore.RunKeepsValid | rigflow-log/src/store.rs:149-289 | so does every run |
| Import.SeenInBucket | rigflow-log/src/import.rs:327-338 | looking in one bucket finds a duplicate exactly when a scan over every accepted contact does |
| Import.PlanRecord | rigflow-log/src/import.rs:253-341 | one record is sorted as unusable, confirming, known or new as the naive scan would, and the index stays exact |
| Import.PlanInner | rigflow-log/src/import.rs:224-342 | the indexed planner refines the naive planner on every log, window and list of records |
| Import.PlanText | rigflow-log/src/import.rs:203-222 | a text that does not parse is refused whole, another one is planned record by record |
| ImportConfirmations.PlanTallies | rigflow-log/src/import.rs:253-325 | for every log and file, a plan lists one confirmation for exactly the stored contacts and services that some usable record confirms and the log holds no date for, whatever an upload left there, with the date given first; the rest are counted, as are confirmed strangers, each once |
| ImportConfirmations.CommitRecords | rigflow-log/src/import.rs:224-342 | committing the plan changes no upload date, keeps every confirmation date the log had, and sets every other to the first one in the file |
| ImportConfirmations.CommitConfirms | rigflow-log/src/import.rs:418-431 | afterwards every usable contact with a match in the log is confirmed, with a date, by every service that confirms it |
| ImportConfirmations.PlanProblems | rigflow-log/src/import.rs:253-264 | a plan reports exactly the unusable contacts, in order, by their place in the file |
| ImportConfirmations.UsableIff | rigflow-log/src/import.rs:152-168 | a contact is usable exactly when it names a station and a mode and its date and time have the shape the duplicate window can read |
| ImportConfirmations.ConfirmsIff | rigflow-log/src/import.rs:369-416 | a contact carries one mark for every service that confirms it and no other, with the trimmed date of that service's field or else its own date |
| ImportConfirmations.SaysInAnyCase | rigflow-log/src/import.rs:369-416 | a confirming field counts in any letter case and between any blanks |
| ImportLaws.PlanConserves | rigflow-log/src/import.rs:253-341 | at every point of a file import, records read are accounted for once |
| ImportLaws.FilePlan | rigflow-log/src/import.rs:224-342 | total = unusable + importable + duplicates + confirming records, and no two importable contacts share a key within the window |
| ImportLaws.ReimportIff | rigflow-log/src/import.rs:175-342 | committing a planned file and planning it again offers nothing if and only if every accepted contact has a readable time and every record new to the log has an accepted contact the database recognizes; both can be read off the first plan before it is committed |
| ImportLaws.ReimportOffersNothing | rigflow-log/src/import.rs:175-342 | untrimmed whitespace and unreadable times are the only causes: without them nothing is offered again |
| ImportLaws.ImportIdempotent | rigflow-log/src/import.rs:203-342 | plan, commit, plan again: the second plan imports nothing |
| ImportLaws.ImportFileTwice | rigflow-log/src/import.rs:203-342 | the same from parsed records, where only call, band and time need care |
| ImportLaws.BlankBreaksReimport | rigflow-log/src/import.rs:435-441 | two records that differ by a blank behind the call are one contact to the index and two to the database, so the second is offered on reimport |
| ImportLaws.ConfirmationsAreDated | rigflow-log/src/import.rs:369-416 | a confirmation taken from a usable record always carries a date |
| ImportLaws.ConfirmAllRecords | rigflow-log/src/store.rs:538-549 | once committed, dated confirmations count as recorded |
| ImportLaws.PlanCommits | rigflow-log/src/import.rs:253-325 | no confirmation of a plan breaks the transaction that commits it |
| ImportLaws.RedownloadConfirmsNothing | rigflow-log/src/import.rs:423-431 | a committed download planned again confirms nothing new, and what it confirmed is counted as already confirmed |
| ControlTask.Task.Turn | rigflow-client/src/net/websocket.rs:81-441 | one turn of the loop changes the variables and sends what the arm of its event says |
| ControlLaws.KeepsConnection | rigflow-client/src/net/websocket.rs:81-441 | write half, read half, server address and connected flag stay in agreement; a held radio implies a connection; a pending reconnect implies an armed task without socket |
| ControlLaws.KeepsRadio | rigflow-client/src/net/websocket.rs:105-139 | the remembered radio is always the one last asked for and not let go |
| ControlLaws.KeepsBackoff | rigflow-client/src/net/websocket.rs:373-408 | the wait is the doubled one of the failures counted so far |
| ControlLaws.KeepsReacquire | rigflow-client/src/net/websocket.rs:411-439 | each timer-sent request uses up a retry period of the give-up window |
| ControlLaws.KeepsBusy | rigflow-client/src/net/websocket.rs:242-269 | the busy streak starts at the first busy reply since anything else was heard |
| ControlLaws.ReachableInv | rigflow-client/src/net/websocket.rs:81-441 | all of these hold in every state any run can reach |
| ControlLaws.TimerAsksForRequested | rigflow-client/src/net/websocket.rs:373-439 | in every reachable state a timer asks only for the radio last requested and not released since, over a live connection, and reconnects only to the armed server |
| ControlLaws.RequestedMeaning | rigflow-client/src/net/websocket.rs:105-139 | along every run a radio counts as requested if and only if it was the last one asked for successfully and neither a release nor a disconnect came behind that |
| ControlLaws.RetriesBounded | rigflow-client/src/net/websocket.rs:373-452 | over every run the wait is min(2^n, 30) s after n failures, within 1..30 s, and a reconnect leads to at most nine timer requests |
| ControlLaws.BusyGivesUpIff | rigflow-client/src/net/websocket.rs:242-269 | a busy reply drops the connection and disarms every reconnect exactly when the user made the connection or the streak is at least 45 s old; otherwise only the streak is recorded |
| ControlLaws.QuietStays | rigflow-client/src/net/websocket.rs:81-441 | once disconnected and disarmed, by the user or by giving up, nothing is sent and nothing reconnects until a user's connect succeeds |
| ControlHistory.HistoryDecides | rigflow-client/src/net/websocket.rs:81-441 | in every reachable state each variable is what the last event that bears on it made it: connection, radio held, armed, own connection, server, radio to ask for, and when each of the three timers is due |
| ControlHistory.AttemptsAreCounted | rigflow-client/src/net/websocket.rs:307-408 | the attempt number is none once connected, the first after a drop outside a busy streak, and one more for each failed reconnect |
| ControlLiveness.SendsExactly | rigflow-client/src/net/websocket.rs:81-441 | in every reachable state an event sends exactly what the history calls for, to the server chosen last and for the radio asked for last |
| ControlLiveness.ReconnectPendingIff | rigflow-client/src/net/websocket.rs:307-408 | an armed task without a connection has a reconnect pending if and only if no user's connect failed since the last drop |
| ControlLiveness.DropReconnects | rigflow-client/src/net/websocket.rs:307-368 | after a drop in an armed state the reconnect timer can fire exactly from one second later on, as long as nothing happens to the connection |
| ControlLiveness.FailureReconnects | rigflow-client/src/net/websocket.rs:373-408 | after the n-th failed reconnect it can fire exactly from min(2^n, 30) seconds later on |
| ControlLiveness.ReconnectAsks | rigflow-client/src/net/websocket.rs:373-439 | a reconnect that remembers a radio asks for it at once and every four seconds, exactly once each time, until 35 seconds are over; then nothing is sent and the radio is forgotten |
| Resampler.ResampleLoop | rigflow-client/src/tci_server.rs:760-774 | the stateless loop yields the interpolated samples, in bounds and terminating |
| Resampler.EmitMeaning | rigflow-client/src/tci_server.rs:765-772 | output k is the interpolation at the start plus k steps, and output stops at the last full segment |
| Resampler.LerpBetween | rigflow-client/src/tci_server.rs:767-770 | every output lies between its two neighbouring inputs |
| Resampler.EmitExtend | rigflow-client/src/mic.rs:487-511 | later input only adds to what was produced |
| Resampler.EmitShift | rigflow-client/src/mic.rs:505-511 | re-basing the phase on the carried sample changes nothing |
| Resampler.EmitStops | rigflow-client/src/mic.rs:505-511 | the phase left over lies behind the block, so the clamp at 0 never acts |
| Resampler.ResampleBlock | rigflow-client/src/mic.rs:494-504 | the loop over one block yields that block's share, every index in bounds |
| Resampler.MicProc.ResampleInto48k | rigflow-client/src/mic.rs:487-511 | one block puts out its share and carries phase and last sample on |
| Resampler.MicProc.Transmit | rigflow-client/src/mic.rs:449-482 | a block is ignored unless the radio is keyed from the microphone; audio within 1 Hz of 48 kHz passes through, other audio is resampled, and the ring keeps the newest samples |
| Resampler.PassesThrough | rigflow-client/src/mic.rs:449-453 | within 1 Hz of 48 kHz the ring holds the newest 24000 of the captured samples themselves |
| Resampler.MicShared.SetTxStreaming | rigflow-client/src/mic.rs:107-114 | a change of the streaming flag empties the ring |
| Resampler.MicShared.PushTx | rigflow-client/src/mic.rs:139-151 | while streaming the ring keeps the newest 24000 samples, otherwise nothing is added |
| Resampler.MicShared.DrainTx | rigflow-client/src/mic.rs:173-179 | draining hands out the whole ring and empties it |
| Resampler.StreamIsResample | rigflow-client/src/mic.rs:487-511 | however a signal is cut into blocks, empty ones included, the stream is the stateless resampling of one zero followed by the signal |
| Resampler.RingHoldsNewest | rigflow-client/src/mic.rs:107-151 | keying empties the ring but not the phase: whatever was resampled before, the ring holds the newest half second of what the resampled signal gains, however it is cut |
| ClockOffset.AudioMetrics.RecordProbe | rigflow-client/src/audio_metrics.rs:131-158 | a probe updates minimum, round trip and offset by the gate and the smoothing of the specification |
| ClockOffset.AudioMetrics.RecordAudioOneWay | rigflow-client/src/audio_metrics.rs:163-180 | a packet contributes only a plausible figure and only once an offset is known |
| ClockHistory.ProbeMeaning | rigflow-client/src/audio_metrics.rs:131-158 | a positive round trip is shown, lowers the minimum to itself or lets it creep by a sixty-fourth, and moves the offset a quarter of the way if and only if it is at most one and a half times the new minimum; no other probe does anything |
| ClockHistory.PacketMeaning | rigflow-client/src/audio_metrics.rs:163-180 | a delay within -1 to 5 s moves the one-way figure an eighth of the way, once an offset is known, and nothing else; any other packet does nothing |
| ClockHistory.RoundTripsShown | rigflow-client/src/audio_metrics.rs:131-145 | over every run the round trip shown is the last positive one, and the minimum never falls below every one of them |
| ClockHistory.OneWayConverges | rigflow-client/src/audio_metrics.rs:163-180 | one plausible delay measured again and again brings the one-way figure within 8 ns of it, at once when none was known |
| ClockOffset.OffsetWithinSamples | rigflow-client/src/audio_metrics.rs:131-158 | over any run the offset stays inside every range that holds the accepted samples |
| ClockOffset.OneWayInRange | rigflow-client/src/audio_metrics.rs:163-180 | the one-way figure never leaves the plausible range |
| ClockOffset.MinimumBounded | rigflow-client/src/audio_metrics.rs:131-145 | over every run of a fresh estimator, and for each of its positive probes, the minimum exceeds that probe's round trip by at most a factor 65/64 per positive probe behind it |
| ClockOffset.AcceptedAgainIff | rigflow-client/src/audio_metrics.rs:131-150 | a lasting change of the round trip is accepted again after finitely many probes if and only if the minimum is at least 64 ns or the new value is acceptable at once |
| ClockOffset.CreepsGeometrically | rigflow-client/src/audio_metrics.rs:136-142 | from 64 ns on the minimum's distance to 63 ns grows by at least 65/64 per probe until it reaches the new round trip |
| ClockOffset.StuckBelow64 | rigflow-client/src/audio_metrics.rs:136-142 | a minimum below 64 ns never creeps up |
| ClockOffset.OffsetConverges | rigflow-client/src/audio_metrics.rs:150-158 | repeating one offset brings the estimate within 4 ns, after as many probes as the error has nanoseconds or as soon as three quarters per probe leave less than 1 ns of what exceeds 3 ns |
| ClockOffset.StaysSettled | rigflow-client/src/audio_metrics.rs:150-158 | within 4 ns it stays where it is |
| ClockOffset.ProbesConverge | rigflow-client/src/audio_metrics.rs:131-158 | on the estimator itself: accepted probes of one offset bring the published one within 4 ns at that rate, and at once when none was known |
| Calendar.CivilEpoch | rigflow-client/src/ui/app_audio.rs:485-496 | day 0 is 1970-01-01 |
| Calendar.CivilIsValid | rigflow-client/src/ui/app_audio.rs:485-496 | every day number yields a date of the calendar |
| Calendar.CivilSuccessor | rigflow-client/src/ui/app_audio.rs:485-496 | the next day number yields the next date under the 4/100/400 leap rule, for all integers |
| Calendar.CivilRoundTrip | rigflow-client/src/ui/app_audio.rs:485-496 | counting the days of the date gives the day number back |
| Calendar.CivilIsOnto | rigflow-client/src/ui/app_audio.rs:485-496 | every date of the calendar is the date of exactly one day |
| Timestamp.StampRoundTrip | rigflow-client/src/ui/app_audio.rs:472-482 | the printed fields are a valid date and time of day and determine the seconds |
| Timestamp.TimestampIsUnique | rigflow-client/src/ui/app_audio.rs:472-482 | different seconds have different names |
| TimeText.NameReadsBack | rigflow-client/src/ui/app_audio.rs:472-482 | a file name of the years up to 9999 has its separators in place, and its digits, read as a contact's date and time, are its second |
| HtmlEntities.OneMoreStage | rigflow-client/src/logging/qrz.rs:136-142 | one further whole-text replacement behind a single pass is a single pass knowing one more entity, if no earlier replacement can produce a piece of it |
| HtmlEntities.DecodeIsSinglePass | rigflow-client/src/logging/qrz.rs:136-142 | the five replacements in a row equal one left-to-right pass over all five entities, on every text |
| HtmlEntities.DecodeInvertsEscape | rigflow-client/src/logging/qrz.rs:134-142 | decoding the escaped form of any text gives that text |
| HtmlEntities.AmpersandMustBeLast | rigflow-client/src/logging/qrz.rs:134-135 | with the ampersand first, the escaped text of an entity would be decoded twice |
| QrzPaging.ScanPage | rigflow-client/src/logging/qrz.rs:89-116 | the loop over positions finds the record count and largest logid of the recursive scan, or the slice out of range |
| QrzPaging.TakePage | rigflow-client/src/logging/qrz.rs:43-82 | the cursor of a page that continues the loop is strictly larger than the one before |
| QrzPaging.Fetch | rigflow-client/src/logging/qrz.rs:39-84 | the page loop returns what following the cursor page by page returns, for every server |
| QrzLaws.ScanRecord | rigflow-client/src/logging/qrz.rs:89-116 | a rendered record adds exactly its logid to the scan, in any letter case |
| QrzLaws.LargestLogid | rigflow-client/src/logging/qrz.rs:89-116 | the cursor of a page of ascending records is the logid of its last one |
| QrzLaws.TakesPage | rigflow-client/src/logging/qrz.rs:43-82 | a page moves the cursor to its last logid and appends exactly its records |
| QrzLaws.FetchReturnsInOrder | rigflow-client/src/logging/qrz.rs:39-84 | against a server that answers with at most `cap` records behind the cursor, the fetch returns the first 400 times `cap` records, each once and in order |
| QrzLaws.FetchIsCompleteIff | rigflow-client/src/logging/qrz.rs:25-84 | with full pages the download is complete exactly for logs of up to 100,000 confirmed records |
| QrzLaws.OutOfRangeIff | rigflow-client/src/logging/qrz.rs:89-116 | the scan of a page slices out of range exactly when some logid field it comes to declares a length (at least one byte is taken) that does not end on a character boundary of the text |
| QrzLaws.PanicsIffBadPage | rigflow-client/src/logging/qrz.rs:59-82 | an answer makes the worker panic exactly when it is accepted and carries such a page |
| QrzLaws.PanicMeansBadPage | rigflow-client/src/logging/qrz.rs:39-84 | a fetch panics only if the server sent such a page |
| QrzLaws.EmptyFieldAtEnd | rigflow-client/src/logging/qrz.rs:113 | a page that ends in an empty logid field is one |
| QrzOutcome.FetchOutcome | rigflow-client/src/logging/qrz.rs:39-84 | for every server: a fetch fails exactly when a request it comes to does not get through or the first one is refused, panics exactly when one brings a page out of range, and otherwise holds every page with records, each on lines of its own, a page that does not lead on being the last |
| QrzOutcome.ScanIsLargest | rigflow-client/src/logging/qrz.rs:89-116 | the cursor of any page is the largest logid that a field of it names, and never below the one before |
| Waterfall.ChunkRoundTrip | rigflow-server/src/net/udp/udp_waterfall.rs:71-80 | every chunk inside a row survives its wire format |
| WaterfallHistory.DecodesIffEncoded | rigflow-client/src/net/udp.rs:81-98 | a payload is read exactly when it is the encoding of a chunk of a nonempty row that fits it, and then as that chunk |
| WaterfallHistory.EncodingMeaning | rigflow-server/src/net/udp/udp_waterfall.rs:71-79 | a chunk is three 16-bit numbers, most significant byte first, and its bins in four bytes each, least significant first |
| WaterfallHistory.FiniteMeaning | rigflow-client/src/net/udp.rs:112-118 | a bin is finite exactly when its magnitude lies below the bit pattern of infinity |
| WaterfallHistory.PacketsAreNumbered | rigflow-server/src/net/udp/udp_waterfall.rs:58-86 | packet k of a row carries the counters k steps on |
| WaterfallHistory.AdvanceMeaning | rigflow-server/src/net/udp/udp_waterfall.rs:58-86 | a counter is so many steps on, less a whole number of times its width |
| Waterfall.UdpWaterfallSender.SendRow | rigflow-server/src/net/udp/udp_waterfall.rs:49-87 | a row becomes the packets of its 256-bin chunks under one row id, counters wrapping; an empty or oversized row sends nothing |
| Waterfall.UdpWaterfallSender.SendChunks | rigflow-server/src/net/udp/udp_waterfall.rs:58-86 | the loop sends the chunks in order and numbers them on |
| Waterfall.WaterfallReassembler.PushChunk | rigflow-client/src/net/udp.rs:81-125 | malformed payloads change nothing; others act as the chunk they carry |
| Waterfall.WaterfallReassembler.AddChunk | rigflow-client/src/net/udp.rs:99-125 | a new row id drops the row before, a finished row ignores chunks, otherwise bins are copied and a full count emits the row |
| Waterfall.WaterfallReassembler.CopyBins | rigflow-client/src/net/udp.rs:112-118 | bins are written in place up to the first that is not finite |
| WaterfallLaws.CountIsCoverage | rigflow-client/src/net/udp.rs:119-124 | disjoint chunks carry as many bins as the row has exactly when they cover it |
| WaterfallLaws.RowState | rigflow-client/src/net/udp.rs:81-125 | after disjoint chunks of a row in any order every chunk stands at its offset, and the row was emitted once if they complete it and never otherwise |
| WaterfallLaws.EmitsAtCoverage | rigflow-client/src/net/udp.rs:119-124 | the emission happens at the chunk that completes the coverage |
| WaterfallLaws.EmitsAtCount | rigflow-client/src/net/udp.rs:99-124 | for chunks of a row that overlap or repeat: a chunk emits exactly when it brings the number of bins received, repeats included, to the row's size, and bins nothing covered are zero |
| WaterfallLaws.CountedRun | rigflow-client/src/net/udp.rs:99-124 | such a run emits one row if that number is reached and none otherwise |
| WaterfallLaws.RepeatsAreHarmlessIff | rigflow-client/src/net/udp.rs:60-65 | rows of n bins come out whole or not at all, whatever of their packets is repeated, lost or reordered, if and only if n is at most the 256 bins of one packet |
| WaterfallLaws.RowArrivesInAnyOrder | rigflow-server/src/net/udp/udp_waterfall.rs:49-87 | the packets of a sent row, in any order, make the client emit exactly that row, once |
| WaterfallLaws.StreamRoundTrip | rigflow-client/src/net/udp.rs:81-125 | a stream of rows comes out whole and in order however each row's packets were shuffled, row ids wrapping |
| WaterfallLaws.AssemblyIsSourced | rigflow-client/src/net/udp.rs:81-125 | whatever arrives, the buffer holds finite bins, each zero or carried by a chunk of the current row |
| WaterfallLaws.EmittedRowIsSourced | rigflow-client/src/net/udp.rs:81-125 | so an emitted row has the announced size and nothing of an earlier row |
| WaterfallHistory.ReceivedDecides | rigflow-client/src/net/udp.rs:81-125 | whatever payloads came, every place holds the last finite bin written to it since the row changed and before it was complete; a chunk with a bad bin is written up to that bin and not counted, and the row is done when the count reaches its size |
| WaterfallHistory.EmissionDecided | rigflow-client/src/net/udp.rs:99-125 | and the buffer is emitted exactly with the payload whose chunk brings the count to the size |
| WaterfallLaws.RepeatedChunkCompletesRow | rigflow-client/src/net/udp.rs:119-124 | a repeated half row is emitted although the other half never came |
| ExportWorker.RunBatch | rigflow-client/src/logging/export.rs:458-504 | a batch is answered actions first, then the newest query, call lookup, count and callbook lookup, up to where the application went away |
| ExportWorker.SendNewest | rigflow-client/src/logging/export.rs:482-504 | the coalesced jobs follow behind the actions |
| ExportWorker.Work | rigflow-client/src/logging/export.rs:457-505 | the worker's loop answers the batches in order, and stops at the first event nobody takes |
| ExportLaws.ActionsAnsweredInOrder | rigflow-client/src/logging/export.rs:470-480 | for every batching each write, import plan and service sync is answered exactly once, in submission order |
| ExportLaws.BatchOfKind | rigflow-client/src/logging/export.rs:459-490 | a batch answers at most one job of a coalesced kind, the newest |
| ExportLaws.NewestAnswered | rigflow-client/src/logging/export.rs:441-504 | the answers of a coalesced kind follow submission order, and once the queue is served the last one given is to the job submitted last |
| ExportLaws.SingleJobsAllAnswered | rigflow-client/src/logging/export.rs:457-505 | jobs that arrive one by one are all answered: nothing is dropped but within a batch |
| Cluster.SpotBook.InsertSpot | rigflow-client/src/cluster/mod.rs:198-208 | earlier reports of the spot go, the new one is appended, and the oldest are dropped until 4000 remain |
| Cluster.SpotBook.Expire | rigflow-client/src/cluster/mod.rs:211-213 | only spots younger than the time to live remain, in order |
| Cluster.LineReader.DrainLines | rigflow-client/src/cluster/client.rs:331-341 | every complete line is parsed and inserted in order, the partial one stays |
| Cluster.LineReader.Read | rigflow-client/src/cluster/client.rs:271-275 | one read handles the lines its text completes |
| ClusterLaws.InsertKeepsBook | rigflow-client/src/cluster/mod.rs:198-208 | under a clock that does not run backwards the book stays bounded, without double spots and in order of arrival, and ends in the new spot |
| ClusterLaws.InsertDropsReports | rigflow-client/src/cluster/mod.rs:198-219 | with room in the book, an insert drops exactly the reports of the same call at most 200 Hz away and adds the new one |
| ClusterLaws.EvictsOldest | rigflow-client/src/cluster/mod.rs:201-207 | a full book loses one spot, and no remaining one is older, whatever the clock did |
| ClusterLaws.StaysIff | rigflow-client/src/cluster/mod.rs:198-208 | the inserted spot stays exactly when there is room or some kept spot is not newer |
| ClusterLaws.ExpireKeepsBook | rigflow-client/src/cluster/mod.rs:211-213 | expiry keeps the book and exactly the spots that are young enough |
| ClusterLaws.RunKeepsBook | rigflow-client/src/cluster/mod.rs:198-217 | every book a monotone clock can build is bounded, free of two reports of one call within 200 Hz, and holds the spot just inserted |
| ClusterLaws.ChompIsExact | rigflow-client/src/cluster/client.rs:334 | a line loses exactly its trailing line breaks and carriage returns |
| ClusterLaws.LinesAreWhole | rigflow-client/src/cluster/client.rs:331-334 | the text is cut behind each of its line breaks, each piece yields one line, and what stays in the accumulator is the rest, without a break |
| ClusterLaws.LinesAppend | rigflow-client/src/cluster/client.rs:331-341 | draining in two steps yields the lines and the remainder of draining once |
| ClusterLaws.SplitDoesNotMatter | rigflow-client/src/cluster/client.rs:271-275 | lines, book and remainder are the same however the stream is split across reads, each line being stamped by its number |
| ClusterLaws.SplitMovesOnlyStamps | rigflow-client/src/cluster/client.rs:271-275 | a split decides when lines are handled and nothing else: any two splits under any two clocks that do not run backwards leave the same remainder, as many lines, and the same spots in the same order but for their stamps |

## Left out

- Tone detection (Goertzel filter, envelope, thresholds): each block contributes one boolean.
- Rounding of `f32`, `f64` and of `Duration` to nanoseconds: times, samples and frequencies are exact reals or decimals.
- RoundTrip: a dot is a whole number of detection blocks, as the block grid of a receiver that starts with the sender would have it.
- SendText: sleeps last exactly as long as asked; a thread that oversleeps shifts all later events.
- Parse: overflow of a position plus a field length near 2^64 is not modelled.
- Dates that are not eight digits, which only hand-edited rows can have, are treated as unreadable; the calendar library is more lenient there. A leap second counts as second 60 of its minute.
- JournalFaithful: a journal write that stops half-way is not modelled; opening or syncing may fail.
- The station table, row timestamps, JSON encoding of extra fields, frequencies beyond a signed 64-bit word in the database, and row ids at the end of their range.
- Contents of radio messages and snapshots, and status texts shown to the user: the control task's events carry only what its decisions depend on.
- An arm of the control task reads the clock once.
- Microphone gain, peak, clip recording and capture generations.
- RecordProbe: overflow of 64-bit sums is not modelled; the one-way difference wraps as in the source.
- PacketMeaning: states the figure for a one-way difference within 64 bits; beyond, it wraps as in the source.
- FrequencyRoundTrip: decimals are exact; the `f64` of the source cannot hold every 64-bit number of Hz.
- Scanning a page in the middle of a multi-byte character and past the end is one outcome, `OutOfRange`.
- FetchIsCompleteIff: the log does not change during the download, and no other text in it passes for a logid field.
- Splitting a QRZ reply into its metadata and its payload, and the texts of errors.
- EmitsAtCoverage: needs disjoint chunks, because overlapping ones are counted twice; `EmitsAtCount` says what happens then.
- The media header in front of a waterfall chunk, except for its two counters.
- What a background job does; an answer stands for the event its job produced. Cached callbook sessions.
- SplitDoesNotMatter: a line's clock reading depends on its number only; `SplitMovesOnlyStamps` is the law without that. In both, text is ASCII: a multi-byte character cut by a read is replaced in the source. Expiry between two reads is left out.
- Parsing a spot line is a parameter; login, commands and reconnects of the cluster client.
- Sockets, threads, HTTP, SQLite and the file system themselves.
- Export filters, WSJT-X datagrams, settings migrations, display formatting, the jitter buffer and the server's radio manager: case analysis, or not part of this model.
