/**
 * The option-to-configuration step of the preload bridge: the two lookup tables
 * that turn friendly algorithm names into OpenPGP algorithm identifiers, the
 * defaulting rules applied to the user's crypto preferences, and the shape of
 * the two library calls (encrypt with a configuration, decrypt without one).
 */
module CryptoOptions {
  import opened Wrappers

  /** The symmetric ciphers the cipher table knows. */
  datatype Cipher = Aes128 | Aes192 | Aes256

  /** The compression algorithms the compression table knows. */
  datatype Compression = Uncompressed | Zip | Zlib

  /** The key under which the cipher table stores `c`. */
  function CipherName(c: Cipher): string {
    match c
    case Aes128 => "aes128"
    case Aes192 => "aes192"
    case Aes256 => "aes256"
  }

  /** The key under which the compression table stores `z`. */
  function CompressionName(z: Compression): string {
    match z
    case Uncompressed => "uncompressed"
    case Zip => "zip"
    case Zlib => "zlib"
  }

  /**
   * Property names every plain object literal inherits from `Object.prototype`.
   * Indexing a table with one of them yields that inherited member instead of `undefined`.
   */
  const InheritedNames: set<string> := {
    "constructor", "hasOwnProperty", "isPrototypeOf", "propertyIsEnumerable",
    "toLocaleString", "toString", "valueOf", "__proto__",
    "__defineGetter__", "__defineSetter__", "__lookupGetter__", "__lookupSetter__"
  }

  /** What indexing one of the two object-literal tables yields. */
  datatype Entry<+T> =
    | Own(id: T)              // one of the table's own three entries
    | Inherited(name: string) // a member inherited from Object.prototype
    | Undefined               // any other name

  /** `SYMMETRIC[name]`. */
  function LookupSymmetric(name: string): (e: Entry<Cipher>)
    ensures e.Own? <==> name in {"aes128", "aes192", "aes256"}
    ensures e.Own? ==> CipherName(e.id) == name
    ensures e.Inherited? <==> name in InheritedNames
    ensures e.Inherited? ==> e.name == name
  {
    if name == "aes128" then Own(Aes128)
    else if name == "aes192" then Own(Aes192)
    else if name == "aes256" then Own(Aes256)
    else if name in InheritedNames then Inherited(name)
    else Undefined
  }

  /** `COMPRESSION[name]`. */
  function LookupCompression(name: string): (e: Entry<Compression>)
    ensures e.Own? <==> name in {"uncompressed", "zip", "zlib"}
    ensures e.Own? ==> CompressionName(e.id) == name
    ensures e.Inherited? <==> name in InheritedNames
    ensures e.Inherited? ==> e.name == name
  {
    if name == "uncompressed" then Own(Uncompressed)
    else if name == "zip" then Own(Zip)
    else if name == "zlib" then Own(Zlib)
    else if name in InheritedNames then Inherited(name)
    else Undefined
  }

  /** Every cipher is found again under its own name, so the table is complete and unambiguous. */
  lemma LookupSymmetricName(c: Cipher)
    ensures LookupSymmetric(CipherName(c)) == Own(c)
  {
    match c
    case Aes128 =>
    case Aes192 =>
    case Aes256 =>
  }

  /** Every compression algorithm is found again under its own name. */
  lemma LookupCompressionName(z: Compression)
    ensures LookupCompression(CompressionName(z)) == Own(z)
  {
    match z
    case Uncompressed =>
    case Zip =>
    case Zlib =>
  }

  /**
   * The crypto preferences held in the settings (`settings.crypto`). Every field
   * may be missing; a missing `symmetric` or `compression` and an empty one are
   * both falsy in JavaScript.
   */
  datatype CryptoPrefs = CryptoPrefs(
    symmetric: Option<string>,
    aead: Option<bool>,
    compression: Option<string>,
    s2kIterationCount: Option<int>)

  /** `options?.symmetric` */
  function Symmetric(options: Option<CryptoPrefs>): Option<string> {
    if options.Some? then options.value.symmetric else None
  }

  /** `options?.aead` */
  function Aead(options: Option<CryptoPrefs>): Option<bool> {
    if options.Some? then options.value.aead else None
  }

  /** `options?.compression` */
  function CompressionOption(options: Option<CryptoPrefs>): Option<string> {
    if options.Some? then options.value.compression else None
  }

  /** A string-valued option is falsy when it is missing or empty. */
  predicate Falsy(s: Option<string>) {
    s.None? || s.value == ""
  }

  /** `s || fallback` for a string-valued option. */
  function OrElse(s: Option<string>, fallback: string): (r: string)
    ensures Falsy(s) ==> r == fallback
    ensures !Falsy(s) ==> r == s.value
  {
    if Falsy(s) then fallback else s.value
  }

  /** The configuration handed to the library: exactly these three fields. */
  datatype PgpConfig = PgpConfig(
    preferredSymmetricAlgorithm: Entry<Cipher>,
    aeadProtect: bool,
    preferredCompressionAlgorithm: Entry<Compression>)

  /** The configuration `encryptText` builds from its `options` argument. */
  function Resolve(options: Option<CryptoPrefs>): (config: PgpConfig)
    // `||`: a missing or empty cipher name means aes256
    ensures Falsy(Symmetric(options)) ==> config.preferredSymmetricAlgorithm == Own(Aes256)
    ensures config.preferredSymmetricAlgorithm.Own? <==>
              Falsy(Symmetric(options)) || Symmetric(options).value in {"aes128", "aes192", "aes256"}
    ensures forall c :: Symmetric(options) == Some(CipherName(c)) ==> config.preferredSymmetricAlgorithm == Own(c)
    // `??`: AEAD is on unless the option is present and false
    ensures config.aeadProtect <==> Aead(options) != Some(false)
    // `||`: a missing or empty compression name means zlib
    ensures Falsy(CompressionOption(options)) ==> config.preferredCompressionAlgorithm == Own(Zlib)
    ensures config.preferredCompressionAlgorithm.Own? <==>
              Falsy(CompressionOption(options)) || CompressionOption(options).value in {"uncompressed", "zip", "zlib"}
    ensures forall z :: CompressionOption(options) == Some(CompressionName(z)) ==> config.preferredCompressionAlgorithm == Own(z)
  {
    PgpConfig(
      LookupSymmetric(OrElse(Symmetric(options), "aes256")),
      if Aead(options).Some? then Aead(options).value else true,
      LookupCompression(OrElse(CompressionOption(options), "zlib")))
  }

  /** With no preferences at all the library is asked for AES-256, AEAD and zlib. */
  lemma ResolveDefaults()
    ensures Resolve(None) == PgpConfig(Own(Aes256), true, Own(Zlib))
    ensures Resolve(Some(CryptoPrefs(None, None, None, None))) == PgpConfig(Own(Aes256), true, Own(Zlib))
  {
  }

  /**
   * A non-empty cipher or compression name the table does not hold, and that
   * is not an inherited property name, reaches the library as "no identifier",
   * never as an error or a default.
   */
  lemma ResolveUnknownName(p: CryptoPrefs)
    ensures !Falsy(p.symmetric) && p.symmetric.value !in {"aes128", "aes192", "aes256"} && p.symmetric.value !in InheritedNames ==>
              Resolve(Some(p)).preferredSymmetricAlgorithm == Undefined
    ensures !Falsy(p.compression) && p.compression.value !in {"uncompressed", "zip", "zlib"} && p.compression.value !in InheritedNames ==>
              Resolve(Some(p)).preferredCompressionAlgorithm == Undefined
  {
  }

  /** A name that is a member of `Object.prototype` resolves to that inherited member, not to `undefined`. */
  lemma ResolveInheritedName(p: CryptoPrefs)
    ensures !Falsy(p.symmetric) && p.symmetric.value in InheritedNames ==>
              Resolve(Some(p)).preferredSymmetricAlgorithm == Inherited(p.symmetric.value)
    ensures !Falsy(p.compression) && p.compression.value in InheritedNames ==>
              Resolve(Some(p)).preferredCompressionAlgorithm == Inherited(p.compression.value)
  {
  }

  /** The preferences' iteration count never reaches the library. */
  lemma ResolveIgnoresIterationCount(p: CryptoPrefs, n: Option<int>)
    ensures Resolve(Some(p)) == Resolve(Some(p.(s2kIterationCount := n)))
  {
  }

  /** The library's encrypt call: text, password and configuration in, armored text or an error out. */
  type PgpEncrypt = (string, string, PgpConfig) -> Result<string, string>

  /** The library's decrypt call: armored text and password only; no configuration goes in. */
  type PgpDecrypt = (string, string) -> Result<string, string>

  /** `encryptText(text, password, options)`: the library run on the resolved configuration. */
  function EncryptText(pgp: PgpEncrypt, text: string, password: string, options: Option<CryptoPrefs>): (r: Result<string, string>)
    ensures forall o :: Symmetric(o) == Symmetric(options) && Aead(o) == Aead(options) && CompressionOption(o) == CompressionOption(options) ==>
              r == pgp(text, password, Resolve(o))
  {
    pgp(text, password, Resolve(options))
  }

  /** `decryptText(armored, password)`. */
  function DecryptText(pgp: PgpDecrypt, armored: string, password: string): Result<string, string> {
    pgp(armored, password)
  }

  /**
   * Decryption is given no preferences: whatever configuration a text was
   * encrypted under, a library that inverts its own encryption gives it back.
   */
  lemma DecryptInvertsEncrypt(enc: PgpEncrypt, dec: PgpDecrypt, text: string, password: string, options: Option<CryptoPrefs>)
    requires forall c :: enc(text, password, c).Success? ==> dec(enc(text, password, c).value, password) == Success(text)
    ensures EncryptText(enc, text, password, options).Success? ==>
              DecryptText(dec, EncryptText(enc, text, password, options).value, password) == Success(text)
  {
  }

  /** Two preference objects that differ only in the iteration count make the library be called with the same configuration. */
  lemma EncryptIgnoresIterationCount(pgp: PgpEncrypt, text: string, password: string, p: CryptoPrefs, n: Option<int>)
    ensures EncryptText(pgp, text, password, Some(p)) == EncryptText(pgp, text, password, Some(p.(s2kIterationCount := n)))
  {
    ResolveIgnoresIterationCount(p, n);
  }
}
