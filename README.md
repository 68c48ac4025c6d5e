# Short-link storage engine of shortening_long_url, in Dafny

This project models the storage core of the Go URL shortener
GorunovAlx/shortening_long_url and proves properties of that model. The core has five parts:

- **The `ShortURLStorage` façade** (`internal/app/storage/storage.go`). At start-up it
  picks one backend. It derives a short code for each new link, stores the link
  through the backend, and turns a duplicate-insert error into "the code
  plus a conflict error". It also creates links in batches, passing each
  item's correlation id through unchanged.
- **Three backends**:
  - an in-memory map from short code to record (`in_memory.go`);
  - an append-only file of JSON lines, read by a first-match scan
    (`in_file.go`);
  - a PostgreSQL table `shortened_links` (`database.go`), modelled as the
    rows its SQL statements read and write.
- **The short-code generator** (`shorturl_generator.go`): SHA-256 of
  `link ++ decimal(userID)`, reduced to a uint64, written in decimal,
  base58-encoded, and cut to its first 8 characters.
- **The user token** (`user_token_generator.go`): `hex(id ++ HMAC-SHA256(key, id))`
  for a random 4-byte id. The model checks the token and reads back the owner id.
- **The error taxonomy** (`error_util.go`): two sentinels, two wrapper
  errors whose `Unwrap` returns them, and an `errors.Is` that follows the
  chain.

Modules, one per file:

- `Optional`, `Bytes` (bytes, big-endian numbers) and `ErrorUtil` (errors, `Unwrap`, `errors.Is`, messages);
- `Hex`: the Base16 encoding of section 8 of RFC 4648, with Go's error order for decoding;
- `ShortURLGenerator`, `UserTokenGenerator`;
- `StorageTypes`: the records and the configuration;
- `InMemory`, `InFile`, `Database`: the three backends;
- `Storage`: the façade.

Each backend is a class whose methods change its state field in place: the
map, the sequence of file lines, or the sequence of table rows. The façade
holds one backend and dispatches on it. The generators and the error
utilities are pure functions.

The model treats these as inputs:

- SHA-256, the base58
  encoder and HMAC-SHA256 are function-valued parameters.
  - The digest and the MAC are 32 bytes.
  - The encoder returns a text and an optional error.
- The random id is a `Result` parameter.
- The configuration (`BaseURL`, file path, DSN) is a record fixed at start-up.
- The outcome of the database constructor (its `CreateTable`) and of the
  driver's ping are parameters.
- The file's existing lines and the table's existing rows are given to the constructor.

Where the code differs from what one might expect, the model follows the code:

- `big.Int.Uint64()` keeps the **low** 64 bits of the digest. That is the last 8
  bytes (`Low64`), not the leading ones.
- The file backend has no tombstones and no delete. A lookup returns the
  **first** matching line. A batch is written as one JSON-array line, and a
  later record scan cannot decode it.
  - Once a batch line is in the file, every lookup that reaches it fails
    (`BatchLineBlocksLaterLookups`). This holds for a non-nil batch, which
    is the only kind modelled.
  - When an undecodable line comes before any record with a write's short
    link, the existence check sees only the decoding error, and every
    repeat of that write appends again (`WriteAfterUndecodableRepeats`).
- The table's `unique` constraint on `initial_link` covers every row,
  deleted ones included.
- Both link columns are `varchar(256)`.
  - A longer value is an insert error.
  - Excess that is all spaces is cut off instead.
- Only the database backend can report a conflict. The in-memory and file
  backends answer `nil` to a repeated create, so the façade then returns
  the code without `ErrUniqueLink`.
- The hashed string is the bare concatenation of link and decimal id, so
  different (link, id) pairs can share a code (`ConcatenationCollides`).
- A second owner who shortens a URL that is already stored is given a code
  that neither the in-memory map nor the table holds.
  - The in-memory map drops the write, and the code resolves to "not
    found" (`WriteOfStoredLinkNotFound`).
  - The database insert conflicts with `InsertUniqueLinkError`, and the
    code has no row (`InsertOfStoredLinkNotFound`).
  - The file backend checks for an existing record by short link, not by
    initial link. When every line of the log is a record with another
    code, it appends the second owner's record and the code resolves
    (`WriteThenScan`). When an undecodable line comes first, the record
    is still appended, but a lookup of the code stops at that line and
    reports its error (`ScanStopsAtUndecodable`).
- The generator test in `shorturl_generator_test.go` reads its user id with
  `GetUserID` from a UUID text and requires no error. The dash after the
  first eight hex digits is not a hex digit, so the call fails with the
  invalid-byte error (`TestUserIDIsNotHex`).

## Model

| member | source | states |
|---|---|---|
| ErrorUtil.Unwrap | internal/app/utils/error_util.go:47-53 | only the two wrapper errors unwrap, and what they unwrap to is a strictly smaller error, so following the chain ends |
| ErrorUtil.NewInsertUniqueLinkError | internal/app/utils/error_util.go:25-30 | the error carries the link and unwraps to ErrUniqueLink; `errors.Is` matches ErrUniqueLink and not ErrDeletedLink; its message is the sentinel's text, ": ", and the link |
| ErrorUtil.NewDeletedLinkError | internal/app/utils/error_util.go:32-37 | the error carries the short URL and unwraps to ErrDeletedLink; `errors.Is` matches ErrDeletedLink and not ErrUniqueLink; its message is the sentinel's text, ": ", and the short URL |
| ErrorUtil.Root | internal/app/utils/error_util.go:47-53 | the end of an unwrap chain is an error that wraps nothing |
| ErrorUtil.Is | internal/app/storage/storage.go:108 | `errors.Is` against a sentinel holds exactly when the end of the unwrap chain is that sentinel |
| ErrorUtil.SentinelsExclusive | internal/app/utils/error_util.go:8-11 | no error matches both ErrUniqueLink and ErrDeletedLink |
| ErrorUtil.Message | internal/app/utils/error_util.go:39-45 | a wrapper's text starts with its inner error's text followed by ": ", and ends with the link or short URL it carries |
| Hex.Decode | internal/app/generators/user_token_generator.go:39-56 | a successful decoding has half as many bytes as characters; a failure is the odd-length error or names a non-hex character of the input |
| Hex.HexDigit | internal/app/generators/user_token_generator.go:33 | each value below 16 has a lower-case digit that reads back as that value |
| Hex.HexDigitOfLowerChar | internal/app/generators/user_token_generator.go:33 | each lower-case hex digit is the digit of its own value |
| Hex.Encode | internal/app/generators/user_token_generator.go:33 | the encoding has two characters per byte |
| Hex.EncodeIsLowerHex | internal/app/generators/user_token_generator.go:33 | every encoded character is a lower-case hex digit |
| Hex.DecodeEncode | internal/app/generators/user_token_generator.go:33-56 | decoding an encoding gives the bytes back |
| Hex.EncodeDecode | internal/app/generators/user_token_generator.go:33-56 | encoding what a lower-case hex text decodes to gives that text back |
| Hex.DecodeSucceedsIff | internal/app/generators/user_token_generator.go:39-56 | decoding succeeds exactly when the length is even and every character is a hex digit, and it then gives half as many bytes |
| Hex.DecodeReportsFirstInvalid | internal/app/generators/user_token_generator.go:39-42 | the error names the first character that is not a hex digit |
| Hex.DecodeOddLength | internal/app/generators/user_token_generator.go:39-42 | an all-hex text of odd length fails with the odd-length error |
| ShortURLGenerator.Decimal | internal/app/generators/shorturl_generator.go:31 | the rendering is never empty, and it is one character exactly for numbers below 10 |
| ShortURLGenerator.HashInput | internal/app/generators/shorturl_generator.go:31-32 | the hashed string is the link followed immediately by the decimal rendering of the user id |
| ShortURLGenerator.DigitChar | internal/app/generators/shorturl_generator.go:31 | a digit below 10 becomes the character with that value |
| ShortURLGenerator.DecimalCanonical | internal/app/generators/shorturl_generator.go:31-34 | the decimal rendering is all digits, with no leading zero except for 0 itself |
| ShortURLGenerator.DecimalRoundTrip | internal/app/generators/shorturl_generator.go:31-34 | parsing the decimal rendering gives the number back |
| ShortURLGenerator.DecimalInjective | internal/app/generators/shorturl_generator.go:31 | distinct numbers render differently |
| ShortURLGenerator.Low64 | internal/app/generators/shorturl_generator.go:33 | the number is below 2^64 and is the big-endian value of the last 8 digest bytes (the low 64 bits of the whole digest) |
| ShortURLGenerator.Rendered | internal/app/generators/shorturl_generator.go:34 | the bytes handed to the encoder are the ASCII digits of the decimal rendering |
| ShortURLGenerator.RenderedIsCanonical | internal/app/generators/shorturl_generator.go:34 | those bytes have no leading zero and parse back to the number |
| ShortURLGenerator.GenerateShortLink | internal/app/generators/shorturl_generator.go:30-36 | when the encoding has at least 8 characters, the code has exactly 8, is a prefix of the encoding, and comes with the encoder's error |
| ShortURLGenerator.SameHashInputSameLink | internal/app/generators/shorturl_generator.go:30-36 | generation is deterministic: equal hashed strings give equal codes |
| ShortURLGenerator.OwnerSeparation | internal/app/generators/shorturl_generator.go:31-32 | for one link, different owners hash different strings |
| ShortURLGenerator.ConcatenationCollides | internal/app/generators/shorturl_generator.go:31-32 | ("x1", 2) and ("x", 12) hash the same string and so get the same code |
| UserTokenGenerator.GenerateUserIDToken | internal/app/generators/user_token_generator.go:14-36 | a failed random read gives "" and its error; otherwise the token is 72 lower-case hex characters and decodes to the id followed by its MAC |
| UserTokenGenerator.AuthUserIDToken | internal/app/generators/user_token_generator.go:38-53 | for a token that decodes to at least 4 bytes: invalid hex gives false with the decoding error; otherwise there is no error, and the answer is true exactly when the bytes after the first 4 equal the MAC of the first 4 |
| UserTokenGenerator.GetUserID | internal/app/generators/user_token_generator.go:55-63 | for a token that decodes to at least 4 bytes: invalid hex gives 0 with the decoding error; otherwise the big-endian value of the first 4 bytes, with the MAC unchecked |
| UserTokenGenerator.BigEndianOfFour | internal/app/generators/user_token_generator.go:61 | the big-endian value of 4 bytes is b0·2^24 + b1·2^16 + b2·2^8 + b3 |
| UserTokenGenerator.AuthAcceptsIssuedToken | internal/app/generators/user_token_generator.go:25-53 | every issued token authenticates as (true, nil) under the same key |
| UserTokenGenerator.AuthRejectsForgedMac | internal/app/generators/user_token_generator.go:38-53 | an id paired with anything but its MAC is refused as (false, nil) |
| UserTokenGenerator.TestUserIDIsNotHex | internal/app/generators/shorturl_generator_test.go:10-20 | the test's UUID user id fails to decode at its first dash, so GetUserID returns 0 and the invalid-byte error |
| UserTokenGenerator.GetUserIDOfIssuedToken | internal/app/generators/user_token_generator.go:25-63 | the id read back from an issued token is the big-endian value of the random id |
| StorageTypes.SetShortLink | internal/app/storage/storage.go:172-174 | only the ShortLink field changes |
| StorageTypes.FullLinkInjective | internal/app/storage/storage.go:150 | under one base URL, distinct short links give distinct addresses |
| InMemory.InMemoryStorage.constructor | internal/app/storage/in_memory.go:15-19 | the store starts empty |
| InMemory.InMemoryStorage.GetInitialLink | internal/app/storage/in_memory.go:22-28 | the stored record's initial link when the key is present, otherwise "" and the "does not exist" error |
| InMemory.InMemoryStorage.WriteShortURL | internal/app/storage/in_memory.go:31-39 | the map is unchanged when some record has the same initial link, otherwise it gains the record under its short link; the error is always nil, and every key still equals its record's short link |
| InMemory.InMemoryStorage.GetAllShortURLByUser | internal/app/storage/in_memory.go:41-54 | the result lists each of the owner's keys once, in some order, as the prefixed short link with its initial link; no error |
| InMemory.InMemoryStorage.WriteListShortURL | internal/app/storage/in_memory.go:60-69 | every item is stored under its short link with user id 0, without a duplicate check; no error, and every key still equals its record's short link |
| InMemory.InMemoryStorage.DeleteShortURLByUser | internal/app/storage/in_memory.go:71-73 | nothing changes and the error is nil |
| InMemory.InMemoryStorage.PingDB | internal/app/storage/in_memory.go:56-58 | always the "does not support the ping operation" error |
| InMemory.LastIndexBelow | internal/app/storage/in_memory.go:60-69 | the last batch index with a given short link, or -1 |
| InMemory.WriteThenLookup | internal/app/storage/in_memory.go:22-39 | after writing a link whose initial link is new, looking up its short link gives its initial link |
| InMemory.WriteOfStoredLinkNotFound | internal/app/storage/in_memory.go:31-39 | writing a record whose initial link is already stored under another code leaves the map unchanged, and that code resolves to "not found" |
| InMemory.WriteIdempotent | internal/app/storage/in_memory.go:31-39 | writing the same record twice is the same as writing it once |
| InMemory.BatchWrittenKeyed | internal/app/storage/in_memory.go:60-69 | a batch keeps every key equal to its record's short link |
| InMemory.BatchLastWins | internal/app/storage/in_memory.go:60-69 | after a batch, a key holds the record of the last item with that short link, or its old record when no item has it |
| InFile.ScanFrom | internal/app/storage/in_file.go:139-151 | a failed scan yields an empty link |
| InFile.Scan | internal/app/storage/in_file.go:132-152 | a failed scan yields an empty link |
| InFile.FileStorage.constructor | internal/app/storage/in_file.go:30-34 | the storage keeps its path and the file's existing lines |
| InFile.FileStorage.ScanFile | internal/app/storage/in_file.go:132-152 | the loop computes the first-match scan |
| InFile.FileStorage.WriteShortURL | internal/app/storage/in_file.go:73-98 | the log is unchanged when a scan for the short link yields a non-empty link (scan errors are ignored), otherwise exactly one record line is appended; no error |
| InFile.FileStorage.GetInitialLink | internal/app/storage/in_file.go:101-103 | the answer is the scan of the log |
| InFile.FileStorage.GetAllShortURLByUser | internal/app/storage/in_file.go:105-130 | the owner's entries in file order, or an empty result and the error of the first line that is not a record |
| InFile.FileStorage.WriteListShortURL | internal/app/storage/in_file.go:158-179 | exactly one line holding the whole batch is appended; no error |
| InFile.FileStorage.PingDB | internal/app/storage/in_file.go:154-156 | always the "does not support the ping operation" error |
| InFile.ListingStaysFailed | internal/app/storage/in_file.go:113-119 | once a listing has failed, reading more lines keeps it failed |
| InFile.ScanSkipsPassed | internal/app/storage/in_file.go:139-149 | record lines that do not match can be skipped without changing the scan |
| InFile.ScanFindsFirstMatch | internal/app/storage/in_file.go:146-148 | the first matching record, after non-matching records, gives its initial link and no error |
| InFile.ScanStopsAtUndecodable | internal/app/storage/in_file.go:140-145 | an undecodable line before any match fails the scan with its decoding error |
| InFile.ScanAbsent | internal/app/storage/in_file.go:151 | a log of non-matching records gives "" and no error |
| InFile.ScanStableUnderAppend | internal/app/storage/in_file.go:132-152 | appending lines never changes a scan that already ended inside the log |
| InFile.WriteThenScan | internal/app/storage/in_file.go:73-103 | a link written to a log that does not know it is appended and then found with its initial link |
| InFile.WriteTwiceAddsOnce | internal/app/storage/in_file.go:73-98 | writing a record with a non-empty initial link twice to such a log adds it once |
| InFile.WriteAfterUndecodableRepeats | internal/app/storage/in_file.go:74-76 | when an undecodable line comes before any record with the short link, writing the same record twice appends it twice |
| InFile.BatchLineBlocksLaterLookups | internal/app/storage/in_file.go:132-179 | once a batch line is in the log, every scan for a link not seen before it fails with the error of the first undecodable line, whatever follows |
| InFile.ListingSucceedsIff | internal/app/storage/in_file.go:113-119 | the listing succeeds exactly when every line is a record |
| InFile.ListingMembers | internal/app/storage/in_file.go:120-126 | an entry is in a successful listing exactly when some record of the owner produces it |
| Database.Varchar | internal/app/storage/database.go:309-312 | a value of at most 256 characters is stored as given; a stored value has at most 256 characters and is a prefix of the given one; otherwise the error is "value too long" |
| Database.Tombstoned | internal/app/storage/database.go:277-300 | exactly the rows with that owner and short link get deleted = true; every other row is unchanged |
| Database.DBStorage.constructor | internal/app/storage/database.go:70-320 | the table starts with its existing rows, which meet the schema |
| Database.DBStorage.GetInitialLink | internal/app/storage/database.go:100-124 | no matching row gives the no-rows error; otherwise the outcome of some matching row: a deleted row gives DeletedLinkError for the short link, any other row gives its initial link |
| Database.DBStorage.WriteShortURL | internal/app/storage/database.go:126-154 | an over-long value is an error; a stored initial link leaves the table unchanged with InsertUniqueLinkError; otherwise one row with the owner and a NULL deleted is appended; the schema still holds |
| Database.DBStorage.GetAllShortURLByUser | internal/app/storage/database.go:156-187 | the result is, as a multiset, the owner's rows (deleted ones too) as prefixed short link and initial link; no error |
| Database.DBStorage.WriteListShortURL | internal/app/storage/database.go:206-233 | all or nothing: every item inserted with a NULL owner, or the table unchanged and the first failure's error; the schema still holds |
| Database.DBStorage.CheckURLsCreatedByUser | internal/app/storage/database.go:235-275 | a link is in the result exactly when it is one of the given links and no row owned by the user has it as its short link, no link appears twice, and the error is nil |
| Database.DBStorage.DeleteShortURLByUser | internal/app/storage/database.go:277-300 | the table becomes its tombstoned form, the schema still holds, and the error is nil even when no row matches |
| Database.BatchStaysFailed | internal/app/storage/database.go:219-230 | once one insert of the transaction has failed, the batch stays failed |
| Database.InsertPlainKeepsValid | internal/app/storage/database.go:219-230 | a batch insert that succeeds keeps the schema |
| Database.InsertedKeepsValid | internal/app/storage/database.go:126-154 | WriteShortURL's insert keeps the schema |
| Database.BatchKeepsValid | internal/app/storage/database.go:206-233 | a successful batch keeps the schema |
| Database.BatchAppendsRows | internal/app/storage/database.go:206-233 | a successful batch appends one row per item, in order, each with a NULL owner, and keeps every old row |
| Database.BatchFailsOnStoredLink | internal/app/storage/database.go:219-230 | a batch holding an initial link the table already has fails |
| Database.BatchSucceedsWhenFresh | internal/app/storage/database.go:206-233 | a batch of short-enough, new and pairwise distinct initial links succeeds |
| Database.InsertThenLookup | internal/app/storage/database.go:100-154 | after a successful insert of a short link no row had, a lookup of it gives the initial link |
| Database.InsertOfStoredLinkNotFound | internal/app/storage/database.go:133-153 | inserting a record whose initial link is already in the table under another code reports InsertUniqueLinkError, adds no row, and a lookup of that code finds no row |
| Database.InsertTwiceConflicts | internal/app/storage/database.go:133-153 | inserting a record a second time leaves the table unchanged and reports InsertUniqueLinkError |
| Database.DeleteThenLookup | internal/app/storage/database.go:100-300 | after the owner deletes a short link, a lookup of it gives DeletedLinkError |
| Database.DeleteByOtherOwnerKeepsRow | internal/app/storage/database.go:284-286 | a delete by another owner leaves a row unchanged |
| Database.TombstonedKeepsValid | internal/app/storage/database.go:277-300 | tombstoning keeps the schema |
| Database.OwnedEntriesMembers | internal/app/storage/database.go:165-180 | an entry is listed exactly when some row with that user id produces it |
| Storage.SelectBackend | internal/app/storage/storage.go:59-80 | the database exactly when a DSN is set and its construction succeeded; otherwise the file exactly when a path is set; otherwise memory |
| Storage.Classify | internal/app/storage/storage.go:106-114 | an error that `errors.Is` ErrUniqueLink keeps the code and reports ErrUniqueLink; any other error gives "" with that error; no error keeps the code |
| Storage.FirstFailure | internal/app/storage/storage.go:145-149 | the first batch item whose generation fails, with every earlier item generated without error, or -1 when none fails; every item up to that one can be sliced |
| Storage.StampLinks | internal/app/storage/storage.go:145-153 | the items before the first generation failure (all of them when none fails) get BaseURL/code in place; later items are unchanged; the error is that failure's |
| Storage.ShortURLStorage.constructor | internal/app/storage/storage.go:59-80 | the backend chosen is the one SelectBackend names, fresh, over the given existing state; the existing rows must meet the schema only when the database is chosen |
| Storage.ShortURLStorage.GetInitialLink | internal/app/storage/storage.go:83-93 | the backend's answer, with "" on an error |
| Storage.ShortURLStorage.CreateShortURL | internal/app/storage/storage.go:96-115 | only when the code's encoding has at least 8 characters: a generation error gives "" and that error, with the backend and record untouched; otherwise the record gets the code, the backend's state follows its own write, and the reply is its classified answer |
| Storage.ShortURLStorage.GetAllShortURLUser | internal/app/storage/storage.go:117-127 | the backend's listing, or an empty result and a new error with the backend error's message |
| Storage.ShortURLStorage.PingDB | internal/app/storage/storage.go:129-137 | the driver's answer for the database, the "does not support" error otherwise |
| Storage.ShortURLStorage.CreateListShortURL | internal/app/storage/storage.go:139-174 | only when every item up to and including the first generation failure has an encoding of at least 8 characters: a generation error stops before the backend is touched; otherwise every item holds BaseURL/code, the backend receives the stamped items, and the reply has one entry per item, in order, with its address, an empty initial link and its correlation id; a failed batch write gives an empty reply and its error |
| Storage.DatabaseCreateOutcome | internal/app/storage/storage.go:106-114 | over the database, an over-long value loses the code, a stored initial link keeps the code with ErrUniqueLink, and a new one keeps the code with no error |
| Storage.DatabaseCreateTwice | internal/app/storage/storage.go:106-109 | creating the same record twice over the database keeps the table the second time and reports the same code with ErrUniqueLink |

## Left out

- SHA-256, base58 encoding and HMAC-SHA256 are parameters with no
  definition. So the concrete codes pinned in
  `shorturl_generator_test.go` are not reproduced.
- `crypto/rand` is left out: the random id is a parameter.
- The JSON byte format is not modelled. A file line is a decoded record,
  a batch array, or a malformed line with its decoder message.
  json.Marshal errors are not modelled.
- Opening, writing, flushing and closing files, and their errors, are not modelled.
- The 64 KiB line limit of `bufio.Scanner` is not modelled. A longer line
  silently ends the scan in the Go program.
- pgx plumbing is not modelled: pool configuration, connection acquire and
  release, query and row-scan errors, `LogLevelFromEnv`, `PGXStdLogger`,
  and the `log.Fatal` exits of `NewDBStorage`.
- The network connect of `DBStorage.PingDB` is not modelled. Its outcome is the `connect` parameter.
- Database.DBStorage.GetInitialLink: states only that the answer comes from some matching row. The order in which PostgreSQL returns rows is not modelled.
- Database.DBStorage.GetAllShortURLByUser: states the result as a multiset, because the SQL has no ORDER BY.
- InMemory.InMemoryStorage.GetAllShortURLByUser: states the result only up to order, because Go's map iteration order is unspecified.
- InFile.FileStorage.WriteListShortURL: an empty batch is modelled as the non-nil `[]`, which a later record scan cannot decode. A nil batch is not modelled. Go writes it as `null`, which decodes as an empty record without error, so it does not block lookups and adds an entry with an empty initial link to user 0's listing.
- UserTokenGenerator.AuthUserIDToken: requires that a token which decodes gives at least 4 bytes. On a shorter one Go panics at `data[4:]`; that panic is not modelled.
- UserTokenGenerator.GetUserID: requires that a token which decodes gives at least 4 bytes. On fewer, Go's `data[:4]` reslices within the capacity of the buffer that `hex.DecodeString` decoded into. It reads whatever bytes are left there, or panics when that capacity is below 4. Which one happens depends on allocation, so neither is modelled.
- Storage.ShortURLStorage.CreateShortURL: requires that the code's base58 encoding has at least 8 characters. On a shorter one Go panics at `finalString[:8]`; the panic is not modelled.
- Storage.ShortURLStorage.CreateListShortURL: requires that every item up to and including the first one whose generation fails has a base58 encoding of at least 8 characters. Go panics at `finalString[:8]` on the first shorter one it reaches; the panic is not modelled.
- The `date_of_create` column is not modelled; no statement reads it.
- The `sync.RWMutex` of `ShortURLStorage` is not modelled. Each façade operation is one atomic step.
- A batch-deletion worker pool does not appear in the modelled code.
  `ShortURLRepo` has no delete method. The backends' `DeleteShortURLByUser`
  is modelled directly.
- The error of a failed `CreateTable` is only consulted for the choice of backend. Its logging is left out.
- Errors are compared by structure. Go compares the wrapper errors by
  pointer, so two separate `NewInsertUniqueLinkError(l)` values are
  different errors in Go and equal here. `errors.Is` against the sentinels
  behaves the same either way.
- A token is read as a sequence of characters, not of bytes.
  - For a non-ASCII character the model reports the character itself,
    where Go reports the first byte of its UTF-8 encoding. For "é" the
    model says U+00E9, Go says U+00C3 'Ã'.
  - The `%#U` notation in Go's invalid-byte message is reproduced with
    its quoted form for printable ASCII only.
- Configuration parsing, HTTP handlers, gzip, routing, logging and the
  stale entry point `cmd/shortener/main.go` are not part of this model.
