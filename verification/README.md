# adk-secure-sessions: a verified model

adk-secure-sessions stores the sessions of an agent framework as encrypted text columns and can
move a live database from one encryption key to another. This project models what decides whether
a stored value can still be read, and with what result: the column codec and its dispatch between
backends, the three Fernet ciphertext shapes, key rotation as a protocol on a database that other
writers keep changing, and the small concurrent and calendar pieces around them. Every theorem is
for all inputs, all runs or all interleavings.

How it is put together:

- `Results`, `Loops`: bytes, exceptions as values, and loops as repeated application of a body.
- `Base64`, `Serialization`, `TypeDecorator`: stored text, envelope and the `EncryptedJSON` column.
  Base64 is concrete: sections 4 and 5 of RFC 4648, with the strict mode of Python's decoder, which
  skips further padding after a complete group.
- `Backends`: a backend is an id and two callables. Authenticated encryption is ideal: `Sound` (the
  same key inverts, whatever was drawn) and `Rejects` (one key refuses what another writes). The
  second is a property of a pair of keys: for all pairs at once it would be contradictory, there being
  more pairs of key and plaintext than ciphertexts of their length.
- `Fernet`, `AesGcm`: the two shipped backends over ideal primitives, with the token layout of the
  Fernet Specification ("Token Format") byte by byte; both are proved to be `Sound` and to `Reject`
  keys that are apart. `ToyCrypto` gives concrete primitives that satisfy every assumed law, so that
  none of the results is vacuous.
- `EncryptedSession`, `PrepareTables`: the service constructor and the double-checked lock.
- `RotationModel`: the database as a map from keys to rows, the four writer steps (insert, delete,
  rewrite, touch), a table's transaction with row locks and rollback, and the call over the four
  tables. A pass is determined by the job (old and new backend), the database and its surroundings
  (`Env`): writers in the gap before each statement, entropy per row, and the row order of the SELECT.
- `RotationSafety`, `RotationRefinement`, `RotationAccounting`, `RotationMigration`,
  `RotationInterference`, `RotationQuiescent`: what holds of every such run.
- `RotationEngine`: the same statements as methods of a mutable `Database`, with the source's two
  loops and counters, proved to compute exactly the protocol of `RotationModel`.
- `Lifecycle`: the writes of any services and rotations in any order, tying all of it together.
- `RevisionMarker`: the text a session carries to notice that its row was rewritten.

Where the repository's documentation and its code differ the model follows the code:

- `src/adk_secure_sessions/rotation.py:112-117` says a skipped record still uses the old key. A guard
  miss only says that the row changed: `RotationInterference.SkippedNeedNotBeOld` has two inputs where
  the record is gone or already under the new key. `MissedRowIsTheWriters` and, for the whole call,
  `MissedRowsAreTheWriters` give the exact condition for any two keys and any traffic: the row is what
  the writers' own steps make of it, so it is of the old backend, or opens under the old key, exactly
  if that is. When the traffic stores nothing of the old backend this comes down to "no step deleted
  or rewrote it" (`MissedRowIsOldIff`).
- `src/adk_secure_sessions/rotation.py:289` and `src/adk_secure_sessions/rotation.py:333-335` say that
  a missed event was deleted. `MissedEventNeedNotBeGone` has an input where it is still there. A missed
  row, event or not, is gone exactly if the last insert or delete of it since the SELECT was a delete
  (`MissedRowIsTheWriters`); a missed event was deleted or rewritten (`MissedWithoutTimeIsWritten`).
- `src/adk_secure_sessions/rotation.py:325-329` says that re-running a same-backend rotation raises.
  It does exactly when some non-NULL row carries that id: `RotationQuiescent.SameBackendRerunRaises`.
- Rotation is documented for any conforming new backend, and the protocol's own example has id 0x10
  (`src/adk_secure_sessions/protocols.py:19-22`), but nothing checks that the id is in
  `BACKEND_REGISTRY`. With an unregistered id the call reports success and leaves text no service can
  parse (`RotationQuiescent.UnregisteredTargetStrands`). So "no plaintext is lost" is proved as an
  equivalence: it holds exactly if the new id is registered or nothing was re-encrypted
  (`RotationRefinement.EveryPointRefines`, `PassRefinesIff`, `NoLostUpdate`, and for a call without
  other writers `RotationQuiescent.QuietRefinesIff`, whose condition can be checked before the call).

`dafny verify dfyconfig.toml` checks everything.

## Model

| member | source | states |
|---|---|---|
| RotationSafety.TablePassSafe | src/adk_secure_sessions/rotation.py:216-291 | In every interleaving, a table's transaction leaves the database the writers alone would have made, except that cells of that table may be re-encrypted; if it raised, not even that. |
| RotationSafety.RunOnlyReencrypts | src/adk_secure_sessions/rotation.py:386-403 | The same for the whole call, returned or raised, with re-encryption confined to the committed tables. |
| RotationSafety.ReencryptedMeaning | src/adk_secure_sessions/rotation.py:162-163 | A re-encrypted cell was opened by the old key, and the new one encrypted the same plaintext; it opens that again exactly if the new id is registered. |
| RotationRefinement.EveryPointRefines | src/adk_secure_sessions/rotation.py:216-283 | At every point inside a pass, uncommitted writes included, the plaintext database is the one the writers' own steps give, exactly if the new id is registered or nothing was written yet: each rotation step is a stutter. |
| RotationRefinement.PassRefinesIff | src/adk_secure_sessions/rotation.py:387-397 | One transaction loses and invents no update exactly if the new id is registered, it raised, or it rewrote nothing. |
| RotationRefinement.NoLostUpdate | src/adk_secure_sessions/rotation.py:304-331 | In every interleaving with any writers, also when the call raises, the final plaintext database is the writers' alone, exactly if the new id is registered or no re-encrypted cell is left. |
| RotationRefinement.NoConfusionSources | src/adk_secure_sessions/rotation.py:321-331 | The condition the refinement needs when both ids are equal holds for two keys apart and for a key rotated to itself. |
| RotationRefinement.MarkersUntouched | src/adk_secure_sessions/rotation.py:270-281 | Rotation sets one column: rows, other columns and revision markers are those the writers made. |
| RotationAccounting.PassFailsIff | src/adk_secure_sessions/rotation.py:226-250 | A pass raises exactly if the SELECT saw a bad value, wherever in the order it sits. |
| RotationAccounting.FailureAtomicity | src/adk_secure_sessions/rotation.py:68-93 | A call that raises at table k of sessions, app_states, user_states, events committed the first k passes; table k and the later ones carry no write of rotation. |
| RotationAccounting.PassAccounting | src/adk_secure_sessions/rotation.py:218-291 | The fetched rows split into rewritten, missed, NULL and other-backend ones, disjointly and completely; `rotated` and `skipped` are the sizes of the first two, a miss being counted in every table but events. |
| RotationAccounting.MissesNeedInterference | src/adk_secure_sessions/rotation.py:258-289 | Every missed row was reached by a writer step of its own after the SELECT, so misses never outnumber the interference. |
| RotationAccounting.RunAccounting | src/adk_secure_sessions/rotation.py:383-403 | The totals returned are the numbers of distinct rows rewritten and of distinct rows missed outside `events`, over all tables. |
| RotationAccounting.SkipsNeedInterference | src/adk_secure_sessions/rotation.py:313-317 | `skipped` never exceeds the writer steps that ran during the call. |
| RotationMigration.MigrationCompleteness | src/adk_secure_sessions/rotation.py:319-324 | With live traffic that stores nothing of the old backend, the old-backend rows left in the whole database are at most `skipped`, none is an event, and they fell by at least `rotated`; `skipped == 0` means there is none. |
| RotationMigration.PassLeavesBehind | src/adk_secure_sessions/rotation.py:235-289 | Of one table only missed rows with an `update_time` can still be of the old backend, and no rewritten row is. |
| RotationMigration.RerunsConverge | src/adk_secure_sessions/rotation.py:113-117 | Repeating the call ends: in a series with fewer interfering steps than rounds some round skips nothing, and from then on the old backend is gone. |
| RotationInterference.MissedRowIsTheWriters | src/adk_secure_sessions/rotation.py:285-289 | For any keys and any traffic, a row whose guard missed is what the writers made of it since the SELECT: gone exactly if its last insert or delete was a delete; of the old backend, or open to the old key, exactly if the writers' row is. |
| RotationInterference.MissedRowsAreTheWriters | src/adk_secure_sessions/rotation.py:112-117 | The same of every row a whole call missed, returned or raised: it is the row the writers alone would have left. |
| RotationInterference.MissedWithoutTimeIsWritten | src/adk_secure_sessions/rotation.py:333-335 | A missed event was reached by a delete or a rewrite since the SELECT. |
| RotationInterference.MissedRowIsOldIff | src/adk_secure_sessions/rotation.py:112-117 | If the traffic stores nothing of the old id, a missed row is still of it exactly if no step deleted or rewrote it. |
| RotationInterference.SkippedNeedNotBeOld | src/adk_secure_sessions/rotation.py:285-288 | Two inputs that refute the docstring: a skipped row that is gone, and one another writer had put under the new key. |
| RotationInterference.GuardDecides | src/adk_secure_sessions/rotation.py:270-283 | A fetched row of the old backend is rewritten exactly if, by the writers' steps so far, it is still there with the text fetched and, outside events, the `update_time` fetched. |
| RotationInterference.TouchedRowIsSkipped | src/adk_secure_sessions/rotation.py:270-288 | In every table but events a moved `update_time` alone makes the guard miss: the row is skipped and still of the old backend. |
| RotationInterference.TouchedEventIsRotated | src/adk_secure_sessions/rotation.py:277-281 | For an event there is no `update_time` to compare, and it is rotated. |
| RotationInterference.MissedEventNeedNotBeGone | src/adk_secure_sessions/rotation.py:289 | An input that refutes the comment: a missed event that is still there and counted nowhere. |
| RotationQuiescent.QuietPass | src/adk_secure_sessions/rotation.py:207-291 | Without other writers a committed pass is a pointwise map that skips nothing, each opened row holding its plaintext encrypted with that row's own draw; a failed one changes nothing. |
| RotationQuiescent.QuietRotation | src/adk_secure_sessions/rotation.py:386-403 | Without other writers the call raises exactly on a bad value; otherwise exactly the old-id cells of all four tables are re-encrypted, everything else is equal, `skipped` is 0 and `rotated` their number. |
| RotationQuiescent.CrossBackendRerunIsIdle | src/adk_secure_sessions/rotation.py:321-324 | A second cross-backend call never changes the database; it returns (0, 0), and raises exactly if the first one wrote rows under an unregistered id. |
| RotationQuiescent.SameBackendRerunRaises | src/adk_secure_sessions/rotation.py:325-331 | Re-running a completed same-backend rotation never changes the database and raises exactly if some non-NULL row carries that id. |
| RotationQuiescent.RotationsChain | src/adk_secure_sessions/rotation.py:304-312 | A to B, then B to C (or back): what A opened C opens, to the same plaintext, exactly if the last id is registered. |
| RotationQuiescent.QuietRefinesIff | src/adk_secure_sessions/rotation.py:386-403 | Without other writers a call that returns keeps every plaintext exactly if the new id is registered or no row carries the old one, which is when `rotated` is 0. |
| RotationQuiescent.UnregisteredTargetStrands | src/adk_secure_sessions/rotation.py:299-303 | The input that shows it: one row, an unregistered new id; `rotated` is 1 and the text no longer parses. |
| RotationEngine.Database.Interfere | src/adk_secure_sessions/rotation.py:313-317 | Other writers act on the rows; a step on a row the transaction has written is held up. |
| RotationEngine.Database.Select | src/adk_secure_sessions/rotation.py:216 | The SELECT returns each row of its table once. |
| RotationEngine.Database.GuardedUpdate | src/adk_secure_sessions/rotation.py:270-283 | The compare-and-swap on key, old text and, outside events, `update_time`: rowcount, new rows and new locks. |
| RotationEngine.Database.EndTransaction | src/adk_secure_sessions/rotation.py:388 | Commit, or rollback of rotation's own writes only. |
| RotationEngine.Database.RotateRow | src/adk_secure_sessions/rotation.py:283-289 | One row's UPDATE and counters are the protocol's step. |
| RotationEngine.Database.RotateNext | src/adk_secure_sessions/rotation.py:218-289 | The loop body takes the protocol from one fetched row to the next, or to its end if it raises. |
| RotationEngine.Database.RotateTable | src/adk_secure_sessions/rotation.py:207-291 | The row loop with its counters ends in the protocol's end of pass. |
| RotationEngine.Database.InTransaction | src/adk_secure_sessions/rotation.py:388-397 | One table's transaction leaves the protocol's result for that table. |
| RotationEngine.Database.RotateEncryptionKeys | src/adk_secure_sessions/rotation.py:382-403 | The table loop with its totals computes the protocol's call: same database, same result or error, for the orders the SELECTs chose. |
| RotationEngine.CompleteCallsExist | src/adk_secure_sessions/rotation.py:386-397 | For any keys, database and other writers there is a call whose SELECTs are complete, so results about calls are never about none. |
| Lifecycle.MigrationsExist | src/adk_secure_sessions/rotation.py:319-324 | A database without bad values has a successful cross-backend call. |
| Lifecycle.WholeLife | src/adk_secure_sessions/services/encrypted_session.py:188-206 | After any run of writes and rotations, interleaved and failed ones included, by services of any accepted configurations, redeployed at any moment or side by side: a service's read returns exactly the last value written if it is configured with the key the value is sealed under and that id is registered, and DecryptionError if not. |
| Lifecycle.ReencryptedIsHeld | src/adk_secure_sessions/rotation.py:233-256 | Rotation only ever re-encrypts a cell its old key had sealed, and what the cell holds stays the same. |
| Lifecycle.MigrationRetires | src/adk_secure_sessions/rotation.py:321-324 | A cross-backend call under live traffic that skipped nothing leaves no ciphertext under the old, registered key. |
| Lifecycle.StoppedRotationRetires | src/adk_secure_sessions/rotation.py:325-331 | So does a call between any two keys with the service stopped. |
| Lifecycle.RetireAndRedeploy | src/adk_secure_sessions/rotation.py:325-331 | The documented procedure: rotate, then deploy without the old key; the service reads every row as last written. |
| Fernet.FernetRoundTrip | src/adk_secure_sessions/backends/fernet.py:173-227 | `sync_decrypt` recovers `sync_encrypt` of the same backend in both modes, for every plaintext, salt, time and IV. |
| Fernet.PassphraseStores | src/adk_secure_sessions/backends/fernet.py:177-183 | With a passphrase `sync_encrypt` stores 0x01, the salt drawn, and a token under HKDF, with that salt, of the passphrase stretched by 600,000 rounds. |
| Fernet.DirectKeyStores | src/adk_secure_sessions/backends/fernet.py:177-178 | With a Fernet key it stores a plain token under that key. |
| Fernet.StoredOpens | src/adk_secure_sessions/backends/fernet.py:309-336 | Every such salted ciphertext opens, for every salt, time and IV. |
| Fernet.PassphraseOpensIff | src/adk_secure_sessions/backends/fernet.py:216-227 | With a passphrase arbitrary bytes open to a plaintext exactly if they are a salted ciphertext under that salt's key, or a token of the 480,000-round key, that holds it. |
| Fernet.DirectKeyOpensIff | src/adk_secure_sessions/backends/fernet.py:216-227 | With a Fernet key exactly the authentic tokens of that key open. |
| Fernet.LegacyTokensOpen | src/adk_secure_sessions/backends/fernet.py:338-357 | So are tokens of the 480,000-iteration key of the same passphrase. |
| Fernet.DetectionIsExact | src/adk_secure_sessions/backends/fernet.py:216-227 | No token enters the salted branch and every salted ciphertext does. |
| Fernet.Detect | src/adk_secure_sessions/backends/fernet.py:216-227 | The legacy branch is taken exactly on a first byte of at least 0x2B, so its guard and the salted one exclude each other. |
| Fernet.TokenShape | src/adk_secure_sessions/backends/fernet.py:62-63 | A token's exact length; at least 100 bytes, with equality exactly below 16 bytes of plaintext; first byte 'g'. |
| Fernet.MinSaltedLengthIsTight | src/adk_secure_sessions/backends/fernet.py:59-63 | A length bound keeps every salted ciphertext exactly if it is at most `_MIN_SALTED_LENGTH`. |
| Fernet.TokenBytes | src/adk_secure_sessions/backends/fernet.py:182 | A token is URL-safe base64 of 0x80, time, IV, the encrypted padded plaintext, and the tag of all that. |
| Fernet.UnpadIff | src/adk_secure_sessions/backends/fernet.py:332-336 | Padding is one to sixteen bytes that give their number, and exactly that is taken off. |
| Fernet.TokenOpens | src/adk_secure_sessions/backends/fernet.py:332-336 | A key opens its own tokens and refuses those of a key it is apart from. |
| Fernet.OpensIffLaidOut | src/adk_secure_sessions/backends/fernet.py:332-336 | On arbitrary bytes: a token opens to a plaintext exactly if it is the version byte, 8 bytes, an IV and a body holding that plaintext, under a matching tag. |
| Fernet.ConstructAccepts | src/adk_secure_sessions/backends/fernet.py:121-140 | Only the empty key is refused; text that decodes to 32 bytes is the key itself, split into signing and encryption halves, and anything else a passphrase with its 600,000- and 480,000-round keys. |
| Fernet.RaisesDecryptionError | src/adk_secure_sessions/backends/fernet.py:216-227 | On arbitrary bytes the only exception is DecryptionError. |
| Fernet.FernetIsSound | src/adk_secure_sessions/backends/fernet.py:151-227 | Every accepted key gives a backend with the properties rotation and the column rely on. |
| Fernet.BackendIs | src/adk_secure_sessions/backends/fernet.py:142-185 | The callables rotation and the column are handed are `sync_encrypt` and `sync_decrypt`. |
| Fernet.FernetRejects | src/adk_secure_sessions/backends/fernet.py:309-357 | Two backends refuse each other's ciphertexts, across modes too, if the keys they derive are apart. |
| AesGcm.Written | src/adk_secure_sessions/backends/aes_gcm.py:122-124 | What is written is the twelve bytes drawn and then the sealed plaintext. |
| AesGcm.OpensIff | src/adk_secure_sessions/backends/aes_gcm.py:151-162 | Arbitrary bytes open exactly if they are twelve bytes and a body of sixteen or more that opens under them; else DecryptionError. |
| AesGcm.ConstructAccepts | src/adk_secure_sessions/backends/aes_gcm.py:83-96 | Exactly 32 bytes are a key, and the backend's id is 2. |
| AesGcm.Framing | src/adk_secure_sessions/backends/aes_gcm.py:122-162 | The nonce frame splits where it was joined; the length check refuses nothing written and is tight. |
| AesGcm.AesGcmIsSound | src/adk_secure_sessions/backends/aes_gcm.py:83-162 | Every 32-byte key gives a sound backend that refuses keys apart from it. |
| ToyCrypto.ToyRing | src/adk_secure_sessions/serialization.py:44-53 | Four keys of the two registered backends that meet all assumed laws exist. |
| Serialization.ParseBuild | src/adk_secure_sessions/serialization.py:64-107 | Parsing inverts building for exactly version 1, registered ids and non-empty bodies, and else raises. |
| Serialization.BuildParse | src/adk_secure_sessions/serialization.py:78-107 | What parses is exactly version 1, an id of 1 or 2, and a non-empty ciphertext, and those are its parts. |
| Serialization.SessionRoundTrip | src/adk_secure_sessions/serialization.py:135-173 | `decrypt_session` inverts `encrypt_session` exactly if the id is registered. |
| Serialization.DecryptSessionNeverGuesses | src/adk_secure_sessions/serialization.py:166-173 | For arbitrary bytes and any backend: a value exactly if the backend opens the envelope's ciphertext to JSON of it; otherwise the backend's own error, SerializationError for opened bytes that are not JSON, DecryptionError for no envelope. |
| Serialization.EncryptSessionWrites | src/adk_secure_sessions/serialization.py:135-141 | Version, the id given and the backend's ciphertext, or the backend's error. |
| Base64.AlphabetIs | src/adk_secure_sessions/services/type_decorator.py:126 | The characters are exactly those of the two tables of RFC 4648, each for its position. |
| Base64.EncodedGroups | src/adk_secure_sessions/services/type_decorator.py:126 | Every group of characters, read as a number in base 64, is its three bytes read big-endian, with '=' exactly where no byte is behind a character. |
| Base64.DecodedGroups | src/adk_secure_sessions/services/type_decorator.py:156 | Every group of bytes decoded, from any text accepted, is its characters' number less the bits behind the last byte. |
| Base64.DecodedLength | src/adk_secure_sessions/services/type_decorator.py:156 | Three bytes for four characters that are not padding. |
| Base64.TextIs | src/adk_secure_sessions/services/type_decorator.py:126 | Stored text is the standard alphabet's encoding, character by character, and is decoded as such. |
| Base64.DecodeEncode | src/adk_secure_sessions/services/type_decorator.py:126 | Decoding inverts encoding, in both alphabets. |
| Base64.DecodeAcceptsWellFormed | src/adk_secure_sessions/services/type_decorator.py:156 | Decoding accepts exactly alphabet text with the padding its last group needs, or any further padding after a complete group, as Python's strict mode does. |
| TypeDecorator.BindStores | src/adk_secure_sessions/services/type_decorator.py:120-126 | NULL for None, else the text of version 1, the column's id and what its backend encrypts; the backend's errors pass through. |
| TypeDecorator.ColumnRoundTrip | src/adk_secure_sessions/services/type_decorator.py:120-163 | What the column binds it reads back, NULL included, exactly if the primary id is registered. |
| TypeDecorator.ColumnReadsSessionEnvelopes | src/adk_secure_sessions/serialization.py:135-173 | Base64 of an `encrypt_session` envelope reads the same through the column as through `decrypt_session`. |
| TypeDecorator.ReadNeverGuesses | src/adk_secure_sessions/services/type_decorator.py:152-174 | For arbitrary text: a value exactly if a dispatched key opens the text's envelope to its JSON, a JSON error exactly if what was opened is not JSON, and DecryptionError in every other case. |
| TypeDecorator.MalformedTextNeverOpens | src/adk_secure_sessions/services/type_decorator.py:155-174 | Text parses exactly if it is ASCII, well-formed base64, long enough, version 1 and of a registered id; anything else opens under no column. |
| TypeDecorator.ParseCellMeaning | src/adk_secure_sessions/services/type_decorator.py:156-157 | Which text carries which envelope, and which exceptions the rest raises. |
| EncryptedSession.Construct | src/adk_secure_sessions/services/encrypted_session.py:180-207 | Accepted exactly if all ids are pairwise distinct; then exactly those ids are dispatched, each to its own backend, and the primary both writes and reads. |
| EncryptedSession.FirstDuplicate | src/adk_secure_sessions/services/encrypted_session.py:188-197 | The `seen_ids` loop finds a repeated id exactly if there is one. |
| EncryptedSession.DecryptDispatch | src/adk_secure_sessions/services/encrypted_session.py:199-201 | The dispatch map binds exactly the listed ids, each to its own decrypt. |
| EncryptedSession.ReadsOwnBackends | src/adk_secure_sessions/services/encrypted_session.py:199-207 | A service reads the cells of its own backends and raises on every other writer's. |
| EncryptedSession.ServiceNeverGuesses | src/adk_secure_sessions/services/type_decorator.py:152-174 | For a constructed service and arbitrary text: a value exactly if one of its backends opens the text's envelope to JSON of it, a JSON error exactly if what one opened is not JSON, else DecryptionError. |
| EncryptedSession.RaisesOnlyCaughtErrors | src/adk_secure_sessions/services/type_decorator.py:164-174 | Backends that raise only their documented errors are all the except clauses need. |
| PrepareTables.DoubleCheckedLocking | src/adk_secure_sessions/services/encrypted_session.py:239-249 | In every interleaving of any number of callers with failing attempts: one caller in the locked part at a time, creation succeeds at most once, and a normal return means the tables exist. |
| PrepareTables.FastPath | src/adk_secure_sessions/services/encrypted_session.py:239-240 | With the flag set a call returns on its first turn, without the lock. |
| PrepareTables.SecondCheck | src/adk_secure_sessions/services/encrypted_session.py:242-244 | A caller that waited for another's creation returns without one of its own. |
| PrepareTables.FirstCall | src/adk_secure_sessions/services/encrypted_session.py:239-249 | A first caller alone creates the tables, sets the flag and leaves the lock free. |
| PrepareTables.FailureReleases | src/adk_secure_sessions/services/encrypted_session.py:242-249 | A failed attempt leaves the flag false and the lock free. |
| PrepareTables.LaterCallerSucceeds | src/adk_secure_sessions/services/encrypted_session.py:239-249 | From every reachable state an unfinished caller can still return normally. |
| PrepareTables.TurnsProgress | src/adk_secure_sessions/services/encrypted_session.py:239-249 | Every turn that is not refused brings the system strictly closer to its end. |
| PrepareTables.NeverStuck | src/adk_secure_sessions/services/encrypted_session.py:239-249 | While a caller is unfinished some caller's turn is not refused. |
| PrepareTables.Service.Advance | src/adk_secure_sessions/services/encrypted_session.py:239-249 | On the mutable fields, one caller's run up to its next await is the step system's turn. |
| PrepareTables.Service.Interleave | src/adk_secure_sessions/services/encrypted_session.py:239-249 | A new service under any schedule of its callers goes through the step system's states, and keeps their invariant. |
| RevisionMarker.IsoFormatReads | src/adk_secure_sessions/services/models.py:394 | The printed form is YYYY-MM-DDTHH:MM:SS.ffffff whose digits read back to the fields, and +00:00 after it in UTC. |
| RevisionMarker.WallClockIs | src/adk_secure_sessions/services/models.py:391-394 | The calendar scale is the Gregorian one in closed form: days from year, month table and leap rule, and microseconds. |
| RevisionMarker.ValidMeans | src/adk_secure_sessions/services/models.py:391-394 | Which fields a stored datetime can have: the month table with the leap day, and offsets of less than a day. |
| RevisionMarker.NaiveMarkers | src/adk_secure_sessions/services/models.py:391-394 | A naive value's marker is its fields printed; markers are equal exactly for equal values, and string order is time order. |
| RevisionMarker.AwareMarkerIs | src/adk_secure_sessions/services/models.py:391-394 | An aware value has a marker exactly if wall clock minus offset is a moment of years 1 to 9999, and it is that moment printed in UTC. |
| RevisionMarker.AwareMarkers | src/adk_secure_sessions/services/models.py:391-394 | Markers of aware values are equal exactly if wall clock minus offset is, and ordered as that is, whatever the offsets. |
| RevisionMarker.MarkersNeverCollideAcrossKinds | src/adk_secure_sessions/services/models.py:391-394 | A naive and an aware marker are never equal. |

## Left out

- The insides of AES, HMAC, PBKDF2 and HKDF, and the randomness of nonces and salts: primitives are functions with the stated laws, and everything drawn is an arbitrary input.
- `json.dumps`, `json.loads` and pydantic: one round-trip law on values; values json cannot serialise do not occur, and `encrypt_json`/`decrypt_json` (the same envelope around text) would repeat the session lemmas.
- Fernet.TokenOpens: the Fernet library's base64 decoder is any function that inverts encoding, so its leniency about foreign characters (and with it which passphrases count as Fernet keys) is not fixed.
- Backend ids above 255: `bytes([version, id])` would raise ValueError; ids are bytes here.
- SQLAlchemy, SQL text, collations and dialects: a statement is one atomic step, a key compares as its exact strings, and a transaction locks exactly the rows it has written. A writer step that meets a lock is held up and belongs to a later gap.
- Cancellation of a rotation, and a failing connection or commit: a pass ends by returning or by the exceptions of its rows.
- Cascading deletes: they are writer steps of their own.
- The async wrappers (`asyncio.to_thread`, `encrypt`, `decrypt`): the same results as the sync methods.
- `isinstance` guards, exception messages and the exception hierarchy.
- EncryptedSession.Construct: a method that returns the column or the error, since a Dafny constructor cannot raise; the ORM models it then builds are left out.
- PrepareTables.Service.Advance: the lock is granted to any waiter, which includes asyncio's first-come order; a call is a place in the callers' list and not a stack frame.
- Fernet and AES-GCM wrong-key refusal: stated for pairs of keys whose tags never coincide, the ideal form of unforgeability.
- `get_update_timestamp`, `to_event`/`from_event` and local time: floating-point POSIX values and daylight saving. `fold` of a naive datetime is not part of this model.
- The ADK CRUD methods: a service write is one insert, rewrite, delete or touch of a row whose value the column binds.
