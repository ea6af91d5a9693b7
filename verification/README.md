# Client key exchange of the s2n TLS library, modelled in Dafny

This project models `tls/s2n_client_key_exchange.c`: the phase of a TLS
handshake that turns the client key exchange message into the raw shared
secret, and that secret into session keys. The model covers:

- the RSA exchange, following section 7.4.7.1 of RFC 5246. The encrypted
  pre-master is framed with a 16-bit length prefix, except under SSLv3, where
  the ciphertext is everything that remains. The 48-byte pre-master starts with
  the legacy client version pair `{v / 10, v % 10}`.
- the Bleichenbacher countermeasure on the receiving side. A failed decryption
  or a wrong version pair only sets `rsaFailed`; it never aborts the exchange.
- the asynchronous private-key boundary. The decryption either runs at once or
  suspends the handshake. When the signer applies its result, the completion
  runs once, and re-entering the same step finishes it.
- the DHE, ECDHE and KEM bindings, including the check that the KEM is handed
  the connection's own KEM shared-secret slot.
- the hybrid combiner. It runs both methods in declared order, concatenates
  their secrets and records the span of wire bytes they covered.
- the key finalizer. It runs the PRF, erases the raw secret, expands the keys
  and caches the session only when the policy allows it.

Everything is a pure function over an immutable connection record (`Conn`).
The handshake buffer is a `Stuffer`: the written bytes plus a read cursor, with
the write cursor at the end of the data. These collaborators are fields of a
`Primitives` record of total functions, so every property holds for every
behaviour they might have:

- RSA encryption and decryption;
- DH, ECDH and KEM computations;
- the PRF, key expansion and the cache store.

Random bytes arrive as an input of type `Result<PremasterSecret>`, so their
failure is modelled too. `Conn.trace` records, in order, every DHE, ECDHE or KEM run, whether alone or
inside a hybrid. The finalizer returns the list of steps it performed.

Files: `errors.dfy` (error kinds and `Result`), `bytes.dfy` (integer widths,
16-bit big-endian encoding), `stuffer.dfy` (the buffer), `versions.dfy`
(protocol versions and the version pair), `connection.dfy` (connection state
and primitives), `rsa_kex.dfy`, `ephemeral_kex.dfy`, `hybrid.dfy`,
`key_finalizer.dfy`, `client_key_exchange.dfy`.

Behaviour of the code as written that the model keeps and states:

- Under SSLv3 the "remaining bytes" length is stored in a 16-bit variable, so it
  wraps. With exactly 65536 bytes left the length becomes 0, and the exchange
  is rejected by the non-zero-length check. With 65537 bytes left only the
  first byte is taken as the ciphertext (`RsaKex.Sslv3LengthWraps`).
- The sender writes the length prefix when the version is newer than SSLv3.
  The receiver skips it only when the version equals SSLv3. The two agree for
  every version from SSLv3 on (`RsaKex.FramingRoundTrip`), and those are the
  only versions a key exchange runs under.
- The top-level entry points pass the method a local key buffer. A plain KEM
  exchange therefore always fails its slot check with a safety error. KEM only
  works inside a hybrid, which passes the KEM slot.
- When the PRF fails, the finalizer stops before the erase step, so the raw
  secret is not zeroed by this code on that path.

## Model

| member | source | states |
|---|---|---|
| Connection.ExpectedVersionPair | tls/s2n_client_key_exchange.c:38 | the expected pair has a single-digit second byte and decodes to the protocol version inside the hello when the hello is in SSLv2 format, and to the hello's own legacy version otherwise, which makes it `{v/10, v%10}` of that version |
| Versions.VersionPair | tls/s2n_client_key_exchange.c:124-126 | the pair is `{v/10, v%10}`, its second byte is below 10, and decoding the pair gives back `v` |
| Versions.VersionPairInjective | tls/s2n_client_key_exchange.c:154-161 | two versions have equal pairs exactly when they are equal, so the pair comparison is a version comparison |
| Versions.DigitPairIsVersionPair | tls/s2n_client_key_exchange.c:124-126 | a two-byte pair with a single-digit second byte is fixed by the version it decodes to: it equals `{v/10, v%10}` |
| Versions.KnownVersionPairs | tls/s2n_client_key_exchange.c:257-261 | TLS 1.2 gives `{3,3}`, TLS 1.1 `{3,2}`, TLS 1.0 `{3,1}` and SSLv3 `{3,0}` |
| Stuffers.WriteThenReadUint16 | tls/s2n_client_key_exchange.c:115 | when the reader has consumed everything written so far, a 16-bit value written in network order is read back unchanged and the read cursor ends after its two bytes |
| RsaKex.ReadEncryptedPremaster | tls/s2n_client_key_exchange.c:112-131 | under SSLv3 the ciphertext is all remaining bytes modulo 2^16, and a count that wraps to 0 is a safety fault; otherwise a u16 prefix, with fewer than 2 bytes being out-of-data; a declared length beyond the remaining bytes is BadMessage; a zero length is a safety fault; on success the ciphertext is the declared bytes and the cursor moves past them |
| RsaKex.FramingRoundTrip | tls/s2n_client_key_exchange.c:267-273 | for SSLv3 and later, the receiver reads back exactly the non-empty ciphertext the sender framed, and consumes the whole frame |
| RsaKex.Sslv3LengthWraps | tls/s2n_client_key_exchange.c:110-113 | with 65537 bytes remaining under SSLv3, the ciphertext taken is the single next byte |
| RsaKex.WithVersionPair | tls/s2n_client_key_exchange.c:133-136 | the fallback pre-master is the random buffer with bytes 0 and 1 replaced by the version pair and bytes 2..47 untouched |
| RsaKex.RsaClientKeyRecvComplete | tls/s2n_client_key_exchange.c:141-164 | fails with SizeMismatch exactly when the decrypted size is not 48; otherwise the pre-master becomes the decrypted bytes and `rsaFailed` is the incoming flag OR a version-pair mismatch, with nothing else changed |
| RsaKex.ContentFailureOnlySetsFlag | tls/s2n_client_key_exchange.c:157-163 | with a 48-byte output, the completion succeeds whether or not decryption failed, and the two results differ only in `rsaFailed` |
| RsaKex.RsaClientKeyRecv | tls/s2n_client_key_exchange.c:99-139 | a waiting operation blocks unchanged and a completed one finishes without rereading; framing errors and random failures propagate; the fallback carries the version pair; with a signer the decryption is handed off with the ciphertext and fallback, otherwise it completes at once and fails only on a wrong decrypted size; only the buffer cursor, the pre-master, the flag and the asynchronous state change |
| RsaKex.ApplyAsyncDecrypt | tls/s2n_client_key_exchange.c:138-161 | applying the pending decryption runs the completion on its output, fails exactly on a wrong size, and marks the operation complete |
| RsaKex.AsyncAgreesWithSync | tls/s2n_client_key_exchange.c:101-106 | suspending, applying the signer's result and re-entering ends in the same state (and the same errors) as decrypting directly |
| RsaKex.FailedDecryptUsesFallback | tls/s2n_client_key_exchange.c:133-161 | a failed decryption that leaves the fallback in place is accepted, with `rsaFailed` set and the fallback pre-master in use |
| RsaKex.RsaClientKeySend | tls/s2n_client_key_exchange.c:245-282 | the pre-master is the version pair followed by random bytes; a random failure propagates, an absent key is Null and a key above 0xffff bytes is SizeMismatch; otherwise an encryption error propagates and a successful encryption makes the send succeed; the buffer gains a u16 prefix iff the version is newer than SSLv3, then exactly key-size ciphertext bytes; the server key is released |
| RsaKex.SendRecvAgree | tls/s2n_client_key_exchange.c:245-277 | with a working key pair and matching versions, the server reads the client's frame and ends with the client's pre-master and `rsaFailed` false |
| EphemeralKex.DheClientKey | tls/s2n_client_key_exchange.c:166-175 | the DH primitive's error propagates; on success the secret and buffer are the primitive's and the server DH parameters are released, nothing else changing (the send side at lines 225-233 mirrors it) |
| EphemeralKex.EcdheClientKey | tls/s2n_client_key_exchange.c:177-186 | as DHE for the curve parameters (send side at lines 235-243) |
| EphemeralKex.KemClientKey | tls/s2n_client_key_exchange.c:188-206 | any buffer other than the connection's KEM slot is a safety fault and the primitive is not run; otherwise the KEM primitive's result lands in the KEM parameters (send side at lines 284-302) |
| EphemeralKex.DheParamsNotReused | tls/s2n_client_key_exchange.c:172-173 | after one DHE exchange the parameters are gone, so a second one fails when the primitive refuses absent parameters |
| EphemeralKex.SubMethodClientKey | tls/s2n_client_key_exchange.c:61-64 | a KEM handed a local buffer fails with Safety; DHE and ECDHE run the receive or send primitive for the direction on their own parameters, propagate its error, return its secret and buffer and release only their own parameters; a KEM handed its slot takes the KEM primitive's parameters and buffer; a successful run is recorded after all earlier ones |
| HybridKex.HybridClientAction | tls/s2n_client_key_exchange.c:45-79 | a failing first or second method stops the combiner with its own error; on success both methods ran in declared order in the caller's direction, the secret is the first secret followed by the second, the message span starts at the old cursor and ends at the new one, DH or ECC parameters a sub-method consumed are released and the others are unchanged, the KEM parameters are freed, and nothing besides the buffer, the span, the trace and those parameters changes |
| HybridKex.HybridCombines | tls/s2n_client_key_exchange.c:58-74 | given both sub-results, the combiner succeeds iff the end cursor is not before the start (else Safety), and the combined secret is first secret followed by second, of the summed length |
| HybridKex.HybridRecvSpanIsBothMessages | tls/s2n_client_key_exchange.c:54-68 | when receiving, the recorded span is exactly the bytes read by the first method followed by those read by the second |
| HybridKex.HybridSendSpanIsBothMessages | tls/s2n_client_key_exchange.c:304-308 | when sending, the recorded span is exactly the first written message followed by the second |
| KeyFinalizer.EraseSecret | tls/s2n_client_key_exchange.c:85-89 | a pre-master-backed secret is zeroed in the connection; an allocated one is dropped; nothing else changes |
| KeyFinalizer.ExpandAndCache | tls/s2n_client_key_exchange.c:90-95 | key expansion is given the erased connection and its error stops everything; otherwise the key block is its output, and the outcome is the cache store's, given the expanded connection, when the policy allows caching, else success |
| KeyFinalizer.CalculateKeys | tls/s2n_client_key_exchange.c:81-97 | a PRF failure changes nothing; otherwise the master secret is the PRF of the raw secret, key expansion is given the connection with that master secret and a pre-master-backed secret already zeroed, the key block is its output, and the cache store sees the expanded connection only under a permitting policy; the steps performed are a prefix of PRF, erase, (free), expansion, (cache store) |
| KeyFinalizer.EraseBeforeExpansion | tls/s2n_client_key_exchange.c:83-95 | whenever key expansion happened, exactly PRF and the erase steps came before it, and the connection the expansion was given carried the new master secret and a zero pre-master, nothing else changed; a cache store only happens after expansion under a permitting policy, on the expanded connection |
| KeyFinalizer.FinalizerCompletes | tls/s2n_client_key_exchange.c:81-97 | when the PRF, key expansion and cache store never fail, the finalizer succeeds and performs every step |
| ClientKeyExchange.KexClientKey | tls/s2n_client_key_exchange.c:208-219 | RSA runs the receive or send side for the direction and passes on its errors and suspension; DHE and ECDHE run the server or client primitive for the direction, the key is its secret, their own parameters are released and nothing else but the buffer and trace changes; a plain KEM fails with Safety; a hybrid runs the combiner in the caller's direction, records the span from the caller's cursor and releases the consumed parameters |
| ClientKeyExchange.Finish | tls/s2n_client_key_exchange.c:219-222 | errors and suspensions pass through; a ready key completes exactly when the finalizer succeeds, with the finalizer's connection and steps, and otherwise fails with the finalizer's error |
| ClientKeyExchange.ClientKeyRecv | tls/s2n_client_key_exchange.c:214-223 | the method's error reaches the caller (for RSA including framing errors such as BadMessage); a ready key completes exactly when the finalizer succeeds, returning the finalizer's connection and steps (so the failure flag and the expanded key block survive) with the master secret the PRF of that key, and otherwise fails with the finalizer's error; a waiting RSA operation suspends unchanged and a completed one goes straight to the finalizer; a plain KEM or a hybrid with a KEM first fails with Safety; DHE and ECDHE fail with the server primitive's error and on completion have read the client's value and released their parameters; a hybrid span starts at the read cursor; completion ran every finalizer step, zeroed the RSA pre-master and freed hybrid KEM parameters |
| ClientKeyExchange.DheReceiveCompletes | tls/s2n_client_key_exchange.c:166-175 | a server whose DH primitive accepts the client's value and whose finalizer collaborators never fail completes the step: the DH parameters are released, every finalizer step ran, and the master secret is the PRF of the computed DH secret |
| ClientKeyExchange.RsaReceiveCompletes | tls/s2n_client_key_exchange.c:214-223 | a server that decrypts the RSA key exchange at once, with finalizer collaborators that never fail, completes: every finalizer step ran, the master secret is the PRF of the decrypted pre-master, the pre-master is zero afterwards, and the failure flag the decryption set survives, with nothing else changed besides the master secret and key block |
| ClientKeyExchange.ClientKeySend | tls/s2n_client_key_exchange.c:310-319 | never suspends; the method's error reaches the caller; a ready key completes exactly when the finalizer succeeds, returning the finalizer's connection and steps (so the failure flag and the expanded key block survive) with the master secret the PRF of that key, and otherwise fails with the finalizer's error; a plain KEM fails with Safety; DHE and ECDHE fail with the client primitive's error and on completion have written our value and released their parameters; a hybrid span starts at the write cursor; completion ran every finalizer step, zeroed the RSA pre-master and released the server key |
| ClientKeyExchange.RsaSendCompletes | tls/s2n_client_key_exchange.c:310-319 | a client whose RSA encryption succeeds, with finalizer collaborators that never fail, completes: the master secret is the PRF of the pair-led pre-master it sent, the pre-master is zero afterwards and the server key is released |
| ClientKeyExchange.HybridCompletes | tls/s2n_client_key_exchange.c:45-79 | a hybrid exchange whose combiner succeeds, with finalizer collaborators that never fail, completes in either direction: the master secret is the PRF of the combined secret, the span starts at the caller's cursor and the KEM parameters are freed |

## Left out

- RSA encryption and decryption, DH/ECDH shared-secret computation, KEM encapsulation and decapsulation, the PRF, key expansion and the cache store are not modelled. They are arbitrary total functions supplied in `Primitives`.
- RsaKex.RsaClientKeySend: requires that the encryption primitive returns exactly the key's size in bytes. The source hands it a buffer of that size, and filling that buffer is the primitive's job.
- RsaKex.ApplyAsyncDecrypt: requires a pending operation in the waiting state. The operation object that applies a result exists only then; its own checks live in code that is not part of this model.
- The private random generator is not modelled. Its output is an input value, 48 bytes or an error.
- The internals of the asynchronous private-key macros are defined in files that are not part of this model. They appear as a three-state `asyncState` plus the pending operation. Failure of the signer callback and the operation's memory ownership are left out.
- The suspension is returned as a status (`Blocked`, `Suspended`) carrying the connection, not as an error code. A functional model needs the connection to resume.
- The caching policy check is read from a connection field (`cachingAllowed`), because its logic lives in code that is not part of this model.
- The `s2n_kex` dispatch table is not part of this model. It is replaced by the `Kex` datatype and a `match`.
- Null checks on the key buffer, the method pointer and the cursor action are left out, because the model has no null references. Allocation, freeing and stuffer growth are left out as well, so they never fail here.
- `RsaKex.RsaClientKeyRecvComplete` always stores the decrypted bytes. The source skips the copy when the decrypted buffer already is the pre-master buffer, which gives the same contents.
- `clientKeyExchangeMessage` is recorded as an offset and a length into the handshake buffer (`Span`), not as the pointer the source takes before the sub-methods write. The span lemmas therefore say nothing about that pointer staying valid when the buffer is reallocated.
- The constant-time comparison is modelled only by its boolean result. Timing is not expressible.
- On an error the model returns only the error. In the source, fields changed before the error remain changed in the connection. Only `KeyFinalizer.CalculateKeys` keeps the partial state, because its step order is the property of interest.
- The protocol version numbers (SSLv2 = 20, SSLv3 = 30, TLS 1.0 to 1.2 = 31 to 33) come from the public header `s2n.h`, which is not part of this model.
