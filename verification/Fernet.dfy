/**
 backends/fernet.py: three ciphertext shapes told apart by first byte and length. The token
 layout (Fernet Specification, "Token Format") is concrete; AES, HMAC and the key derivations
 are functions a `Primitives` supplies, subject to the laws of `Ideal`.
 */
module Fernet {
  import opened Results
  import opened Backends
  import opened Serialization
  import opened Base64

  const PBKDF2_ITERATIONS := 600_000
  const PBKDF2_ITERATIONS_LEGACY := 480_000
  const SALT_MARKER: byte := 0x01
  const SALT_LENGTH := 16
  const MIN_SALTED_LENGTH := 1 + SALT_LENGTH + 100
  const MIN_TOKEN_BYTE: byte := 0x2B

  const VERSION: byte := 0x80
  const BLOCK := 16
  const TAG_LENGTH := 32
  const OVERHEAD := 1 + 8 + 16 + TAG_LENGTH

  // ---- What the cryptographic libraries supply ----

  datatype Primitives = Primitives(
    pbkdf2: (bytes, nat) -> bytes,              // passphrase, iterations
    hkdf: (bytes, bytes) -> bytes,              // master key, salt
    cbcEncrypt: (bytes, bytes, bytes) -> bytes, // key, iv, whole blocks
    cbcDecrypt: (bytes, bytes, bytes) -> bytes,
    hmac: (bytes, bytes) -> bytes,              // key, message
    b64decode: bytes -> Option<bytes>)          // base64.urlsafe_b64decode, lenient about foreign characters

  ghost predicate Ideal(lib: Primitives) {
    && (forall p, n :: |lib.pbkdf2(p, n)| == 32)
    && (forall k, salt :: |lib.hkdf(k, salt)| == 32)
    && (forall k, iv, m :: CbcInverts(lib, k, iv, m))
    && (forall k, m :: |lib.hmac(k, m)| == 32)
    && (forall b :: lib.b64decode(Encode(UrlSafe, b)) == Some(b))
  }

  ghost predicate CbcInverts(lib: Primitives, k: bytes, iv: bytes, m: bytes) {
    && |lib.cbcEncrypt(k, iv, m)| == |m|
    && lib.cbcDecrypt(k, iv, lib.cbcEncrypt(k, iv, m)) == m
  }

  // ---- Padding to whole blocks ----

  function Pad(p: bytes): (m: bytes)
    ensures |m| == BLOCK * (|p| / BLOCK + 1)
  {
    var n := BLOCK - |p| % BLOCK;
    p + seq(n, _ => n)
  }

  function Unpad(m: bytes): Option<bytes> {
    if m == [] || |m| % BLOCK != 0 then None
    else
      var n := m[|m| - 1];
      if n == 0 || n > BLOCK || exists i :: |m| - n <= i < |m| && m[i] != n then None
      else Some(m[..|m| - n])
  }

  /** `m` is `p` and then one to sixteen bytes that each give their number, up to a whole block. */
  ghost predicate IsPadded(m: bytes, p: bytes) {
    exists n: byte :: 1 <= n <= 16 && PaddedWith(m, p, n)
  }

  ghost predicate PaddedWith(m: bytes, p: bytes, n: byte) {
    |m| % 16 == 0 && |m| == |p| + n && m[..|p|] == p && forall i :: |p| <= i < |m| ==> m[i] == n
  }

  /** Padding is what it should be, and exactly that is taken off. */
  lemma UnpadIff(m: bytes, p: bytes)
    ensures IsPadded(Pad(p), p)
    ensures Unpad(m) == Some(p) <==> IsPadded(m, p)
  {
    assert PaddedWith(Pad(p), p, BLOCK - |p| % BLOCK);
    if Unpad(m) == Some(p) {
      assert PaddedWith(m, p, m[|m| - 1]);
    }
    if IsPadded(m, p) {
      var n: byte :| 1 <= n <= 16 && PaddedWith(m, p, n);
      assert m[|m| - 1] == n;
    }
  }

  // ---- cryptography.fernet.Fernet ----

  datatype Key = Key(signing: bytes, encryption: bytes)

  /** Fernet(key): base64 of exactly 32 bytes, or ValueError. */
  function NewKey(lib: Primitives, key: bytes): Option<Key> {
    match lib.b64decode(key)
    case None => None
    case Some(raw) => if |raw| == 32 then Some(Key(raw[..16], raw[16..])) else None
  }

  /** What the tag is computed over. */
  function Signed(lib: Primitives, k: Key, p: bytes, time: bytes, iv: bytes): bytes {
    [VERSION] + time + iv + lib.cbcEncrypt(k.encryption, iv, Pad(p))
  }

  function Token(lib: Primitives, k: Key, p: bytes, time: bytes, iv: bytes): bytes {
    var parts := Signed(lib, k, p, time, iv);
    Encode(UrlSafe, parts + lib.hmac(k.signing, parts))
  }

  function OpenToken(lib: Primitives, k: Key, token: bytes): Result<bytes> {
    match lib.b64decode(token)
    case None => Raise(InvalidToken)
    case Some(data) =>
      if |data| < OVERHEAD || data[0] != VERSION then Raise(InvalidToken)
      else
        var parts, tag := data[..|data| - TAG_LENGTH], data[|data| - TAG_LENGTH..];
        if lib.hmac(k.signing, parts) != tag then Raise(InvalidToken)
        else
          match Unpad(lib.cbcDecrypt(k.encryption, parts[9..25], parts[25..]))
          case None => Raise(InvalidToken)
          case Some(p) => Ok(p)
  }

  /** Two keys whose tags never coincide. */
  ghost predicate Apart(lib: Primitives, k: Key, k': Key) {
    forall m :: lib.hmac(k.signing, m) != lib.hmac(k'.signing, m)
  }

  /** The layout read back: every field of the token is where decrypting looks for it. */
  lemma TokenFields(lib: Primitives, k: Key, p: bytes, time: bytes, iv: bytes)
    requires Ideal(lib) && |time| == 8 && |iv| == 16
    ensures var data, parts := lib.b64decode(Token(lib, k, p, time, iv)), Signed(lib, k, p, time, iv);
            && data == Some(parts + lib.hmac(k.signing, parts))
            && |parts| + TAG_LENGTH == OVERHEAD + BLOCK * (|p| / BLOCK + 1)
            && parts[0] == VERSION && parts[9..25] == iv
            && parts[25..] == lib.cbcEncrypt(k.encryption, iv, Pad(p))
  {
    var parts := Signed(lib, k, p, time, iv);
    assert CbcInverts(lib, k.encryption, iv, Pad(p));
    assert parts[9..25] == iv;
    assert parts[25..] == lib.cbcEncrypt(k.encryption, iv, Pad(p));
  }

  /** What a token is, byte for byte. */
  lemma TokenBytes(lib: Primitives, k: Key, p: bytes, time: bytes, iv: bytes)
    ensures exists m :: IsPadded(m, p) && TokenOf(lib, k, m, time, iv) == Token(lib, k, p, time, iv)
  {
    UnpadIff([], p);
    assert TokenOf(lib, k, Pad(p), time, iv) == Token(lib, k, p, time, iv);
  }

  /** Version, time, IV, encrypted blocks and their tag, in URL-safe base64. */
  function TokenOf(lib: Primitives, k: Key, m: bytes, time: bytes, iv: bytes): bytes {
    var parts := [0x80] + time + iv + lib.cbcEncrypt(k.encryption, iv, m);
    Encode(UrlSafe, parts + lib.hmac(k.signing, parts))
  }

  /** A key opens its own tokens, and refuses those of a key it is apart from. */
  lemma TokenOpens(lib: Primitives, k: Key, k': Key, p: bytes, time: bytes, iv: bytes)
    requires Ideal(lib) && |time| == 8 && |iv| == 16
    ensures OpenToken(lib, k, Token(lib, k, p, time, iv)) == Ok(p)
    ensures Apart(lib, k', k) ==> OpenToken(lib, k', Token(lib, k, p, time, iv)) == Raise(InvalidToken)
  {
    TokenFields(lib, k, p, time, iv);
    var parts := Signed(lib, k, p, time, iv);
    var tag := lib.hmac(k.signing, parts);
    assert |tag| == TAG_LENGTH;
    var data := parts + tag;
    assert data[..|data| - TAG_LENGTH] == parts && data[|data| - TAG_LENGTH..] == tag;
    assert CbcInverts(lib, k.encryption, iv, Pad(p));
    UnpadIff(Pad(p), p);
  }

  /** The token's bytes are these fields in this order under a matching tag, and the body holds `p`. */
  ghost predicate LaidOut(lib: Primitives, k: Key, token: bytes, p: bytes, time: bytes, iv: bytes, body: bytes) {
    && |time| == 8 && |iv| == 16
    && IsPadded(lib.cbcDecrypt(k.encryption, iv, body), p)
    && var parts := [0x80] + time + iv + body;
       lib.b64decode(token) == Some(parts + lib.hmac(k.signing, parts))
  }

  lemma OpenedIsLaidOut(lib: Primitives, k: Key, token: bytes, p: bytes) returns (time: bytes, iv: bytes, body: bytes)
    requires OpenToken(lib, k, token) == Ok(p)
    ensures LaidOut(lib, k, token, p, time, iv, body)
  {
    var data := lib.b64decode(token).value;
    var parts := data[..|data| - TAG_LENGTH];
    time, iv, body := parts[1..9], parts[9..25], parts[25..];
    UnpadIff(lib.cbcDecrypt(k.encryption, iv, body), p);
    assert [VERSION] + time + iv + body == parts;
    assert parts + data[|data| - TAG_LENGTH..] == data;
  }

  lemma LaidOutOpens(lib: Primitives, k: Key, token: bytes, p: bytes, time: bytes, iv: bytes, body: bytes)
    requires Ideal(lib) && LaidOut(lib, k, token, p, time, iv, body)
    ensures OpenToken(lib, k, token) == Ok(p)
  {
    var parts := [VERSION] + time + iv + body;
    var tag := lib.hmac(k.signing, parts);
    var data := parts + tag;
    assert |tag| == TAG_LENGTH;
    assert data[..|data| - TAG_LENGTH] == parts && data[|data| - TAG_LENGTH..] == tag;
    assert parts[9..25] == iv && parts[25..] == body;
    UnpadIff(lib.cbcDecrypt(k.encryption, iv, body), p);
  }

  /** On arbitrary bytes, a token opens to `p` exactly if it is laid out around it and authentic. */
  lemma OpensIffLaidOut(lib: Primitives, k: Key, token: bytes, p: bytes)
    requires Ideal(lib)
    ensures OpenToken(lib, k, token) == Ok(p) <==> exists time, iv, body :: LaidOut(lib, k, token, p, time, iv, body)
    ensures OpenToken(lib, k, token).Raise? ==> OpenToken(lib, k, token).exn == InvalidToken
  {
    if OpenToken(lib, k, token) == Ok(p) {
      var time, iv, body := OpenedIsLaidOut(lib, k, token, p);
    }
    forall time, iv, body | LaidOut(lib, k, token, p, time, iv, body)
      ensures OpenToken(lib, k, token) == Ok(p)
    {
      LaidOutOpens(lib, k, token, p, time, iv, body);
    }
  }

  /** Every token is 100 bytes or longer, with equality exactly below one block, and starts with 'g'. */
  lemma TokenShape(lib: Primitives, k: Key, p: bytes, time: bytes, iv: bytes)
    requires Ideal(lib) && |time| == 8 && |iv| == 16
    ensures var token := Token(lib, k, p, time, iv);
            && |token| == (57 + 16 * (|p| / 16 + 1) + 2) / 3 * 4
            && |token| >= 100
            && (|token| == 100 <==> |p| < 16)
            && token[0] == 'g' as int
  {
    TokenFields(lib, k, p, time, iv);
    var parts := Signed(lib, k, p, time, iv);
    var data := parts + lib.hmac(k.signing, parts);
    assert data[0] == VERSION && data[..3][0] == VERSION;
    assert Slice0(VERSION) == 32;
  }

  // ---- FernetBackend ----

  datatype FernetBackend = FernetBackend(passphraseKey: Option<bytes>, legacyFernet: Key, isPassphraseMode: bool)

  function FernetOf(lib: Primitives, raw: bytes): Option<Key> {
    NewKey(lib, Encode(UrlSafe, raw))
  }

  function Construct(lib: Primitives, key: bytes): Result<FernetBackend> {
    if key == [] then Raise(ConfigurationError)
    else
      match NewKey(lib, key)
      case Some(k) => Ok(FernetBackend(None, k, false))
      case None =>
        var master := lib.pbkdf2(key, PBKDF2_ITERATIONS);
        match FernetOf(lib, lib.pbkdf2(key, PBKDF2_ITERATIONS_LEGACY))
        case None => Raise(OtherError)
        case Some(legacy) => Ok(FernetBackend(Some(master), legacy, true))
  }

  function DerivePerOpKey(lib: Primitives, b: FernetBackend, salt: bytes): Result<Key> {
    match b.passphraseKey
    case None => Raise(DecryptionError)
    case Some(master) =>
      match FernetOf(lib, lib.hkdf(master, salt))
      case None => Raise(OtherError)
      case Some(k) => Ok(k)
  }

  /** One call draws a salt, the time and an IV. */
  function SyncEncrypt(lib: Primitives, b: FernetBackend, p: bytes, r: Entropy): Result<bytes> {
    var salt, time, iv := Draw(r, 0, SALT_LENGTH), Draw(r, 16, 8), Draw(r, 24, 16);
    if !b.isPassphraseMode then Ok(Token(lib, b.legacyFernet, p, time, iv))
    else
      var k :- DerivePerOpKey(lib, b, salt);
      Ok([SALT_MARKER] + salt + Token(lib, k, p, time, iv))
  }

  function Caught(r: Result<bytes>): Result<bytes> {
    if r == Raise(InvalidToken) then Raise(DecryptionError) else r
  }

  function DecryptSalted(lib: Primitives, b: FernetBackend, ct: bytes): Result<bytes>
    requires |ct| >= 1 + SALT_LENGTH
  {
    var k :- DerivePerOpKey(lib, b, ct[1..1 + SALT_LENGTH]);
    Caught(OpenToken(lib, k, ct[1 + SALT_LENGTH..]))
  }

  datatype Route = Salted | Legacy | Refused

  /** The three-way branch: first byte and length, nothing else. Its two guards exclude each other. */
  function Detect(ct: bytes): (route: Route)
    ensures route == Legacy <==> ct != [] && ct[0] >= 0x2B
  {
    if ct == [] then Refused
    else if ct[0] == SALT_MARKER && |ct| >= MIN_SALTED_LENGTH then Salted
    else if ct[0] >= MIN_TOKEN_BYTE then Legacy
    else Refused
  }

  function SyncDecrypt(lib: Primitives, b: FernetBackend, ct: bytes): Result<bytes> {
    match Detect(ct)
    case Salted => DecryptSalted(lib, b, ct)
    case Legacy => Caught(OpenToken(lib, b.legacyFernet, ct))
    case Refused => Raise(DecryptionError)
  }

  /** The exported object: what the column and rotation are handed. */
  function AsBackend(lib: Primitives, b: FernetBackend): Backend {
    Backend(BACKEND_FERNET, (p, r) => SyncEncrypt(lib, b, p, r), ct => SyncDecrypt(lib, b, ct))
  }

  // ---- Properties ----

  lemma DerivedKeys(lib: Primitives, raw: bytes)
    requires Ideal(lib) && |raw| == 32
    ensures FernetOf(lib, raw) == Some(Key(raw[..16], raw[16..]))
  {
  }

  /** The halves of a 32-byte key: the first signs, the second encrypts. */
  function Halves(raw: bytes): Key
    requires |raw| == 32
  {
    Key(raw[..16], raw[16..])
  }

  /** The text decodes to exactly 32 bytes. */
  ghost predicate IsFernetKey(lib: Primitives, key: bytes) {
    lib.b64decode(key).Some? && |lib.b64decode(key).value| == 32
  }

  /** Only the empty key is refused; a Fernet key is used as it is, anything else is a passphrase. */
  lemma ConstructAccepts(lib: Primitives, key: bytes)
    requires Ideal(lib)
    ensures Construct(lib, key).Ok? <==> key != []
    ensures key == [] ==> Construct(lib, key) == Raise(ConfigurationError)
    ensures key != [] && IsFernetKey(lib, key) ==>
              Construct(lib, key).value == FernetBackend(None, Halves(lib.b64decode(key).value), false)
    ensures key != [] && !IsFernetKey(lib, key) ==>
              Construct(lib, key).value ==
              FernetBackend(Some(lib.pbkdf2(key, 600_000)), Halves(lib.pbkdf2(key, 480_000)), true)
  {
    DerivedKeys(lib, lib.pbkdf2(key, PBKDF2_ITERATIONS_LEGACY));
  }

  lemma PerOpKeyExists(lib: Primitives, b: FernetBackend, salt: bytes)
    requires Ideal(lib) && b.passphraseKey.Some?
    ensures DerivePerOpKey(lib, b, salt).Ok?
  {
    DerivedKeys(lib, lib.hkdf(b.passphraseKey.value, salt));
  }

  /** No token reaches the salted branch, and every salted ciphertext does. */
  lemma DetectionIsExact(lib: Primitives, k: Key, p: bytes, salt: bytes, time: bytes, iv: bytes)
    requires Ideal(lib) && |time| == 8 && |iv| == 16 && |salt| == SALT_LENGTH
    ensures Detect(Token(lib, k, p, time, iv)) == Legacy
    ensures Detect([SALT_MARKER] + salt + Token(lib, k, p, time, iv)) == Salted
  {
    TokenShape(lib, k, p, time, iv);
    assert ([SALT_MARKER] + salt + Token(lib, k, p, time, iv))[0] == SALT_MARKER;
  }

  /** No salted ciphertext is shorter than `bound`. */
  ghost predicate BoundKeepsSalted(lib: Primitives, bound: nat) {
    forall k, p, salt, time, iv :: |salt| == SALT_LENGTH && |time| == 8 && |iv| == 16 ==>
      |SaltedCiphertext(lib, k, p, salt, time, iv)| >= bound
  }

  function SaltedCiphertext(lib: Primitives, k: Key, p: bytes, salt: bytes, time: bytes, iv: bytes): bytes {
    [SALT_MARKER] + salt + Token(lib, k, p, time, iv)
  }

  /** The code's constant is the largest that turns no salted ciphertext away. */
  lemma MinSaltedLengthIsTight(lib: Primitives, bound: nat)
    requires Ideal(lib)
    ensures BoundKeepsSalted(lib, bound) <==> bound <= 117
    ensures MIN_SALTED_LENGTH == 117
  {
    forall k, p, salt, time, iv | |salt| == SALT_LENGTH && |time| == 8 && |iv| == 16
      ensures |SaltedCiphertext(lib, k, p, salt, time, iv)| >= MIN_SALTED_LENGTH
    {
      SaltedLength(lib, k, p, salt, time, iv);
    }
    if BoundKeepsSalted(lib, bound) {
      var k, salt, time := Key([], []), Zeros(SALT_LENGTH), Zeros(8);
      SaltedLength(lib, k, [], salt, time, salt);
      assert |SaltedCiphertext(lib, k, [], salt, time, salt)| >= bound;
    }
  }

  function Zeros(n: nat): (b: bytes)
    ensures |b| == n
  {
    seq(n, _ => 0)
  }

  lemma SaltedLength(lib: Primitives, k: Key, p: bytes, salt: bytes, time: bytes, iv: bytes)
    requires Ideal(lib) && |salt| == SALT_LENGTH && |time| == 8 && |iv| == 16
    ensures |SaltedCiphertext(lib, k, p, salt, time, iv)| >= MIN_SALTED_LENGTH
    ensures |SaltedCiphertext(lib, k, p, salt, time, iv)| == MIN_SALTED_LENGTH <==> |p| < BLOCK
  {
    TokenShape(lib, k, p, time, iv);
  }

  /** sync_decrypt recovers sync_encrypt of the same backend, in both modes and for every draw. */
  lemma FernetRoundTrip(lib: Primitives, key: bytes, p: bytes, r: Entropy)
    requires Ideal(lib) && key != []
    ensures Construct(lib, key).Ok?
    ensures var b := Construct(lib, key).value;
            && SyncEncrypt(lib, b, p, r).Ok?
            && SyncDecrypt(lib, b, SyncEncrypt(lib, b, p, r).value) == Ok(p)
  {
    ConstructAccepts(lib, key);
    var b := Construct(lib, key).value;
    var salt, time, iv := Draw(r, 0, SALT_LENGTH), Draw(r, 16, 8), Draw(r, 24, 16);
    if b.isPassphraseMode {
      PerOpKeyExists(lib, b, salt);
      var k := DerivePerOpKey(lib, b, salt).value;
      SaltedOpens(lib, b, k, p, salt, time, iv);
    } else {
      DetectionIsExact(lib, b.legacyFernet, p, salt, time, iv);
      TokenOpens(lib, b.legacyFernet, b.legacyFernet, p, time, iv);
    }
  }

  /** What a backend answers to a salted ciphertext made under key `k`: its own derived key decides. */
  lemma SaltedOpens(lib: Primitives, b: FernetBackend, k: Key, p: bytes, salt: bytes, time: bytes, iv: bytes)
    requires Ideal(lib) && |salt| == SALT_LENGTH && |time| == 8 && |iv| == 16
    ensures var ct, mine := SaltedCiphertext(lib, k, p, salt, time, iv), DerivePerOpKey(lib, b, salt);
            && (mine == Ok(k) ==> SyncDecrypt(lib, b, ct) == Ok(p))
            && (mine.Ok? && Apart(lib, mine.value, k) ==> SyncDecrypt(lib, b, ct) == Raise(DecryptionError))
            && (b.passphraseKey.None? ==> SyncDecrypt(lib, b, ct) == Raise(DecryptionError))
  {
    var ct := SaltedCiphertext(lib, k, p, salt, time, iv);
    DetectionIsExact(lib, k, p, salt, time, iv);
    assert ct[1..1 + SALT_LENGTH] == salt;
    assert ct[1 + SALT_LENGTH..] == Token(lib, k, p, time, iv);
    var mine := DerivePerOpKey(lib, b, salt);
    TokenOpens(lib, k, if mine.Ok? then mine.value else k, p, time, iv);
  }

  /** The key of one salt: HKDF of the passphrase stretched by 600,000 rounds of PBKDF2. */
  function SaltKey(lib: Primitives, passphrase: bytes, salt: bytes): Key
    requires |lib.hkdf(lib.pbkdf2(passphrase, 600_000), salt)| == 32
  {
    Halves(lib.hkdf(lib.pbkdf2(passphrase, 600_000), salt))
  }

  lemma PerOpKeyIs(lib: Primitives, passphrase: bytes, salt: bytes)
    requires Ideal(lib) && passphrase != [] && !IsFernetKey(lib, passphrase)
    ensures Construct(lib, passphrase).Ok?
    ensures DerivePerOpKey(lib, Construct(lib, passphrase).value, salt) == Ok(SaltKey(lib, passphrase, salt))
  {
    ConstructAccepts(lib, passphrase);
    DerivedKeys(lib, lib.hkdf(lib.pbkdf2(passphrase, 600_000), salt));
  }

  /** The bytes one encryption draws: sixteen of salt, eight of time, sixteen of IV. */
  ghost predicate Drawn(r: Entropy, salt: bytes, time: bytes, iv: bytes) {
    && |salt| == 16 && |time| == 8 && |iv| == 16
    && (forall i :: 0 <= i < 16 ==> salt[i] == r(i))
    && (forall i :: 0 <= i < 8 ==> time[i] == r(16 + i))
    && (forall i :: 0 <= i < 16 ==> iv[i] == r(24 + i))
  }

  /** What passphrase mode stores: 0x01, the salt, and a token under that salt's key. */
  lemma PassphraseStores(lib: Primitives, passphrase: bytes, p: bytes, r: Entropy, salt: bytes, time: bytes, iv: bytes)
    requires Ideal(lib) && passphrase != [] && !IsFernetKey(lib, passphrase) && Drawn(r, salt, time, iv)
    ensures Construct(lib, passphrase).Ok?
    ensures SyncEncrypt(lib, Construct(lib, passphrase).value, p, r) ==
            Ok([0x01] + salt + Token(lib, SaltKey(lib, passphrase, salt), p, time, iv))
  {
    ConstructAccepts(lib, passphrase);
    PerOpKeyIs(lib, passphrase, salt);
    DrawnIs(r, salt, time, iv);
  }

  lemma DrawnIs(r: Entropy, salt: bytes, time: bytes, iv: bytes)
    requires Drawn(r, salt, time, iv)
    ensures Draw(r, 0, 16) == salt && Draw(r, 16, 8) == time && Draw(r, 24, 16) == iv
  {
  }

  /** What direct mode stores: a plain token under the key given. */
  lemma DirectKeyStores(lib: Primitives, key: bytes, p: bytes, r: Entropy, salt: bytes, time: bytes, iv: bytes)
    requires Ideal(lib) && key != [] && IsFernetKey(lib, key) && Drawn(r, salt, time, iv)
    ensures Construct(lib, key).Ok?
    ensures SyncEncrypt(lib, Construct(lib, key).value, p, r) ==
            Ok(Token(lib, Halves(lib.b64decode(key).value), p, time, iv))
  {
    ConstructAccepts(lib, key);
    DrawnIs(r, salt, time, iv);
  }

  ghost predicate TokenHolds(lib: Primitives, k: Key, token: bytes, p: bytes) {
    exists time, iv, body :: LaidOut(lib, k, token, p, time, iv, body)
  }

  /** 0x01, sixteen bytes of salt, and at least a hundred that hold `p` under that salt's key. */
  ghost predicate SaltedHolds(lib: Primitives, passphrase: bytes, ct: bytes, p: bytes, salt: bytes, token: bytes) {
    && |salt| == 16 && |token| >= 100 && ct == [0x01] + salt + token
    && |lib.hkdf(lib.pbkdf2(passphrase, 600_000), salt)| == 32
    && TokenHolds(lib, SaltKey(lib, passphrase, salt), token, p)
  }

  /**
   sync_decrypt with a passphrase, on arbitrary bytes: opened to `p` exactly if they are a salted
   ciphertext or a token of the 480,000-round key that holds `p`.
   */
  lemma PassphraseOpensIff(lib: Primitives, passphrase: bytes, ct: bytes, p: bytes)
    requires Ideal(lib) && passphrase != [] && !IsFernetKey(lib, passphrase)
    ensures Construct(lib, passphrase).Ok?
    ensures SyncDecrypt(lib, Construct(lib, passphrase).value, ct) == Ok(p) <==>
              || (exists salt, token :: SaltedHolds(lib, passphrase, ct, p, salt, token))
              || (ct != [] && ct[0] >= 0x2B && TokenHolds(lib, Halves(lib.pbkdf2(passphrase, 480_000)), ct, p))
  {
    ConstructAccepts(lib, passphrase);
    OpensIffLaidOut(lib, Halves(lib.pbkdf2(passphrase, 480_000)), ct, p);
    if Detect(ct) == Salted {
      SaltedOpensIff(lib, passphrase, ct, p);
    }
    forall salt, token | SaltedHolds(lib, passphrase, ct, p, salt, token)
      ensures Detect(ct) == Salted
    {
    }
  }

  lemma SaltedOpensIff(lib: Primitives, passphrase: bytes, ct: bytes, p: bytes)
    requires Ideal(lib) && passphrase != [] && !IsFernetKey(lib, passphrase) && Detect(ct) == Salted
    ensures Construct(lib, passphrase).Ok?
    ensures DecryptSalted(lib, Construct(lib, passphrase).value, ct) == Ok(p) <==>
              exists salt, token :: SaltedHolds(lib, passphrase, ct, p, salt, token)
  {
    var salt, token := ct[1..17], ct[17..];
    PerOpKeyIs(lib, passphrase, salt);
    OpensIffLaidOut(lib, SaltKey(lib, passphrase, salt), token, p);
    assert ct == [0x01] + salt + token;
    assert TokenHolds(lib, SaltKey(lib, passphrase, salt), token, p) <==>
           SaltedHolds(lib, passphrase, ct, p, salt, token);
    forall salt', token' | SaltedHolds(lib, passphrase, ct, p, salt', token')
      ensures salt' == salt && token' == token
    {
    }
  }

  /** With a Fernet key only its own tokens open. */
  lemma DirectKeyOpensIff(lib: Primitives, key: bytes, ct: bytes, p: bytes)
    requires Ideal(lib) && key != [] && IsFernetKey(lib, key)
    ensures Construct(lib, key).Ok?
    ensures SyncDecrypt(lib, Construct(lib, key).value, ct) == Ok(p) <==>
              ct != [] && ct[0] >= 0x2B && TokenHolds(lib, Halves(lib.b64decode(key).value), ct, p)
  {
    ConstructAccepts(lib, key);
    OpensIffLaidOut(lib, Halves(lib.b64decode(key).value), ct, p);
  }

  /** So the ciphertexts passphrase mode stores open, for every salt, time and IV. */
  lemma StoredOpens(lib: Primitives, passphrase: bytes, p: bytes, salt: bytes, time: bytes, iv: bytes)
    requires Ideal(lib) && passphrase != [] && !IsFernetKey(lib, passphrase)
    requires |salt| == 16 && |time| == 8 && |iv| == 16
    ensures Construct(lib, passphrase).Ok?
    ensures var raw := lib.hkdf(lib.pbkdf2(passphrase, 600_000), salt);
            SyncDecrypt(lib, Construct(lib, passphrase).value,
                        [0x01] + salt + Token(lib, Key(raw[..16], raw[16..]), p, time, iv)) == Ok(p)
  {
    PerOpKeyIs(lib, passphrase, salt);
    SaltedOpens(lib, Construct(lib, passphrase).value, SaltKey(lib, passphrase, salt), p, salt, time, iv);
  }

  /** And tokens written before per-operation salts, under the 480,000-round key of the same passphrase. */
  lemma LegacyTokensOpen(lib: Primitives, passphrase: bytes, p: bytes, time: bytes, iv: bytes)
    requires Ideal(lib) && passphrase != [] && !IsFernetKey(lib, passphrase) && |time| == 8 && |iv| == 16
    ensures Construct(lib, passphrase).Ok?
    ensures var raw := lib.pbkdf2(passphrase, 480_000);
            SyncDecrypt(lib, Construct(lib, passphrase).value,
                        Token(lib, Key(raw[..16], raw[16..]), p, time, iv)) == Ok(p)
  {
    ConstructAccepts(lib, passphrase);
    var k := Halves(lib.pbkdf2(passphrase, 480_000));
    DetectionIsExact(lib, k, p, Draw(_ => 0, 0, SALT_LENGTH), time, iv);
    TokenOpens(lib, k, k, p, time, iv);
  }

  /** When everything backend `a` writes is written under keys apart from those `b` would try. */
  ghost predicate KeysApart(lib: Primitives, b: FernetBackend, a: FernetBackend) {
    && (!a.isPassphraseMode ==> Apart(lib, b.legacyFernet, a.legacyFernet))
    && (a.isPassphraseMode && b.isPassphraseMode ==> forall salt :: SaltApart(lib, b, a, salt))
  }

  ghost predicate SaltApart(lib: Primitives, b: FernetBackend, a: FernetBackend, salt: bytes) {
    var mine, yours := DerivePerOpKey(lib, b, salt), DerivePerOpKey(lib, a, salt);
    mine.Ok? && yours.Ok? ==> Apart(lib, mine.value, yours.value)
  }

  /** The backend meets the contract rotation and the column rely on. */
  lemma FernetIsSound(lib: Primitives, key: bytes)
    requires Ideal(lib) && key != []
    ensures Construct(lib, key).Ok?
    ensures Sound(AsBackend(lib, Construct(lib, key).value)) && AsBackend(lib, Construct(lib, key).value).id == 1
    ensures RaisesOnlyDecryptionErrors(AsBackend(lib, Construct(lib, key).value))
  {
    ConstructAccepts(lib, key);
    var f := Construct(lib, key).value;
    var b := AsBackend(lib, f);
    forall p, r
      ensures Opens(b, p, r)
    {
      FernetRoundTrip(lib, key, p, r);
    }
    forall ct
      ensures b.dec(ct).Raise? ==> b.dec(ct).exn in {DecryptionError, InvalidToken}
    {
      RaisesDecryptionError(lib, f, ct);
    }
  }

  lemma BackendIs(lib: Primitives, b: FernetBackend)
    ensures forall p, r :: AsBackend(lib, b).enc(p, r) == SyncEncrypt(lib, b, p, r)
    ensures forall ct :: AsBackend(lib, b).dec(ct) == SyncDecrypt(lib, b, ct)
  {
  }

  lemma RaisesDecryptionError(lib: Primitives, b: FernetBackend, ct: bytes)
    requires Ideal(lib)
    ensures SyncDecrypt(lib, b, ct).Raise? ==> SyncDecrypt(lib, b, ct).exn == DecryptionError
  {
    if Detect(ct) == Salted && b.passphraseKey.Some? {
      PerOpKeyExists(lib, b, ct[1..1 + SALT_LENGTH]);
    }
  }

  lemma FernetRejects(lib: Primitives, key: bytes, key': bytes)
    requires Ideal(lib) && key != [] && key' != []
    ensures Construct(lib, key).Ok? && Construct(lib, key').Ok?
    ensures var b, a := Construct(lib, key).value, Construct(lib, key').value;
            KeysApart(lib, b, a) ==> Rejects(AsBackend(lib, b), AsBackend(lib, a))
  {
    ConstructAccepts(lib, key);
    ConstructAccepts(lib, key');
    var b, a := Construct(lib, key).value, Construct(lib, key').value;
    if KeysApart(lib, b, a) {
      forall p, r
        ensures Refuses(AsBackend(lib, b), AsBackend(lib, a), p, r)
      {
        OtherKeyRefuses(lib, b, a, p, r);
      }
    }
  }

  lemma OtherKeyRefuses(lib: Primitives, b: FernetBackend, a: FernetBackend, p: bytes, r: Entropy)
    requires Ideal(lib) && KeysApart(lib, b, a)
    requires b.isPassphraseMode <==> b.passphraseKey.Some?
    ensures SyncEncrypt(lib, a, p, r).Ok? ==>
            SyncDecrypt(lib, b, SyncEncrypt(lib, a, p, r).value) == Raise(DecryptionError)
  {
    var salt, time, iv := Draw(r, 0, SALT_LENGTH), Draw(r, 16, 8), Draw(r, 24, 16);
    if !a.isPassphraseMode {
      DetectionIsExact(lib, a.legacyFernet, p, salt, time, iv);
      TokenOpens(lib, a.legacyFernet, b.legacyFernet, p, time, iv);
    } else if DerivePerOpKey(lib, a, salt).Ok? {
      var k := DerivePerOpKey(lib, a, salt).value;
      if b.isPassphraseMode {
        assert SaltApart(lib, b, a, salt);
        PerOpKeyExists(lib, b, salt);
      }
      SaltedOpens(lib, b, k, p, salt, time, iv);
    }
  }
}
