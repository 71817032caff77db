/** Values shared by the KDC models: error codes, ticket flags, keys, and the authorization-data and
    encrypted-ticket-part records, with ideal encodings and checksums.

    A DER encoding is the value it encodes, so encoders are injective and each decoder accepts exactly
    what its encoder produced.  A checksum made under a key is the term `Mac(key, usage, over)`, so it
    verifies for that key, usage and data only. */
module KdcTypes {

  datatype Option<+T> = None | Some(value: T)

  datatype Result<+T> = Ok(value: T) | Err(code: int)

  // krb5_err.et, k5e1_err.et, kdb5_err.et and asn1_err.et
  const ERROR_TABLE_BASE_KRB5 := -1765328384
  const KRB5KDC_ERR_SERVICE_EXP := ERROR_TABLE_BASE_KRB5 + 2
  const KRB5KDC_ERR_C_PRINCIPAL_UNKNOWN := ERROR_TABLE_BASE_KRB5 + 6
  const KRB5KDC_ERR_S_PRINCIPAL_UNKNOWN := ERROR_TABLE_BASE_KRB5 + 7
  const KRB5KDC_ERR_CANNOT_POSTDATE := ERROR_TABLE_BASE_KRB5 + 10
  const KRB5KDC_ERR_POLICY := ERROR_TABLE_BASE_KRB5 + 12
  const KRB5KDC_ERR_BADOPTION := ERROR_TABLE_BASE_KRB5 + 13
  const KRB5KDC_ERR_PREAUTH_FAILED := ERROR_TABLE_BASE_KRB5 + 24
  const KRB5KDC_ERR_PREAUTH_REQUIRED := ERROR_TABLE_BASE_KRB5 + 25
  const KRB5KDC_ERR_SERVER_NOMATCH := ERROR_TABLE_BASE_KRB5 + 26
  const KRB5KDC_ERR_MUST_USE_USER2USER := ERROR_TABLE_BASE_KRB5 + 27
  const KRB5KRB_AP_ERR_BAD_INTEGRITY := ERROR_TABLE_BASE_KRB5 + 31
  const KRB5KRB_AP_ERR_TKT_EXPIRED := ERROR_TABLE_BASE_KRB5 + 32
  const KRB5KRB_AP_ERR_TKT_NYV := ERROR_TABLE_BASE_KRB5 + 33
  const KRB5KRB_AP_ERR_NOT_US := ERROR_TABLE_BASE_KRB5 + 35
  const KRB5KRB_AP_ERR_SKEW := ERROR_TABLE_BASE_KRB5 + 37
  const KRB5KRB_AP_ERR_INAPP_CKSUM := ERROR_TABLE_BASE_KRB5 + 50
  const KRB5KRB_ERR_GENERIC := ERROR_TABLE_BASE_KRB5 + 60
  const KRB5KDC_ERR_PREAUTH_EXPIRED := ERROR_TABLE_BASE_KRB5 + 90
  const KRB5KDC_ERR_MORE_PREAUTH_DATA_REQUIRED := ERROR_TABLE_BASE_KRB5 + 91
  const KRB5KRB_AP_ERR_TKT_INVALID := ERROR_TABLE_BASE_KRB5 + 145
  const KRB5_BAD_ENCTYPE := ERROR_TABLE_BASE_KRB5 + 188
  const KRB5_TKT_NOT_FORWARDABLE := ERROR_TABLE_BASE_KRB5 + 221
  const KRB5_PLUGIN_OP_NOTSUPP := ERROR_TABLE_BASE_KRB5 + 250
  const KRB5KDC_ERR_DISCARD := -1750600189
  const KRB5_KDB_NO_PERMITTED_KEY := -1780008448 + 30
  const KRB5_KDB_NO_MATCHING_KEY := -1780008448 + 31
  const ASN1_PARSE_ERROR := 1859794432 + 9
  const ERANGE := 34

  // Authorization-data types (krb5.hin)
  const AD_IF_RELEVANT := 1
  const AD_KDC_ISSUED := 4
  const AD_MANDATORY_FOR_KDC := 8
  const AD_CAMMAC := 96
  const AD_AUTH_INDICATOR := 97
  const AD_WIN2K_PAC := 128
  const AD_SIGNTICKET := 512

  const KEYUSAGE_TGS_REQ_AD_SESSKEY := 4
  const KEYUSAGE_TGS_REQ_AD_SUBKEY := 5
  const KEYUSAGE_CAMMAC := 64
  const KEYUSAGE_AD_SIGNEDPATH := -21

  datatype TktFlag =
    | Forwardable | Forwarded | Proxiable | Proxy | MayPostdate | Postdated | Invalid | Renewable
    | Initial | PreAuth | HwAuth | TransitPolicyChecked | OkAsDelegate | EncPaRep | Anonymous

  datatype Attribute =
    | DisallowForwardable | DisallowRenewable | DisallowProxiable | DisallowPostdated | DisallowAllTix | DisallowSvr
    | DisallowTgtBased | RequiresPreAuth | RequiresHwAuth | OkAsDelegateAttr | OkToAuthAsDelegate | NoAuthDataRequired

  datatype Principal = Principal(realm: string, components: seq<string>)

  predicate IsTgs(p: Principal) {
    |p.components| == 2 && p.components[0] == "krbtgt"
  }

  predicate IsCrossTgs(p: Principal) {
    IsTgs(p) && p.components[1] != p.realm
  }

  /** `macError` is the code krb5_c_make_checksum returns under this key: 0 unless libk5crypto cannot
      checksum with the key's enctype. */
  datatype Key = Key(id: nat, enctype: int, macError: int)

  /** `key` is what krb5_dbe_decrypt_key_data makes of the entry; `permitted` says whether its enctype is
      permitted by configuration. */
  datatype KeyData = KeyData(kvno: nat, permitted: bool, key: Result<Key>)

  datatype DbEntry = DbEntry(
    princ: Principal, attributes: set<Attribute>, keys: seq<KeyData>, maxLife: int, maxRenewableLife: int,
    expiration: int)

  datatype Times = Times(authtime: int, starttime: int, endtime: int, renewTill: int)

  datatype EncTktPart = EncTktPart(
    flags: set<TktFlag>, session: Key, client: Principal, transited: string, times: Times,
    caddrs: string, authdata: seq<AuthData>)

  datatype AuthData = AuthData(adType: int, contents: Contents)

  /** The bytes of an element, by what they decode to. */
  datatype Contents =
    | ElementsDer(elements: seq<AuthData>)
    | CammacDer(cammac: Cammac)
    | SignedPathDer(path: SignedPath)
    | StringsDer(strings: seq<string>)
    | Octets(bytes: string)

  datatype VerifierMac = VerifierMac(kvno: int, enctype: int, checksum: Checksum)

  datatype Cammac = Cammac(
    elements: seq<AuthData>, kdcVerifier: Option<VerifierMac>, svcVerifier: Option<VerifierMac>)

  datatype SignedPath = SignedPath(
    enctype: int, checksum: Checksum, delegated: seq<Principal>, methodData: string)

  datatype Signable =
    | EncTktDer(tkt: EncTktPart)
    | AuthdataDer(ads: seq<AuthData>)
    | SignedPathDataDer(
        client: Principal, authtime: int, delegated: seq<Principal>, methodData: string, authdata: seq<AuthData>)

  /** `RawChecksum` is any checksum value no key made; `error` is the code its verification returns. */
  datatype Checksum =
    | Mac(key: Key, usage: int, over: Signable)
    | RawChecksum(keyed: bool, error: int)

  predicate IsKeyedCksum(c: Checksum) {
    c.Mac? || c.keyed
  }

  function MakeChecksum(key: Key, usage: int, over: Signable): (r: Result<Checksum>) {
    if key.macError != 0 then Err(key.macError) else Ok(Mac(key, usage, over))
  }

  function VerifyChecksum(key: Key, usage: int, over: Signable, c: Checksum): (r: Result<bool>) {
    match c
    case Mac(k, u, d) =>
      if k.enctype != key.enctype then Err(KRB5_BAD_ENCTYPE) else Ok(k == key && u == usage && d == over)
    case RawChecksum(_, error) =>
      if error != 0 then Err(error) else Ok(false)
  }

  /** An ideal ciphertext of request authorization data. */
  datatype EncData = EncData(key: Key, usage: int, plain: Contents)

  function Decrypt(key: Key, usage: int, enc: EncData): (r: Result<Contents>) {
    if enc.key == key && enc.usage == usage then Ok(enc.plain) else Err(KRB5KRB_AP_ERR_BAD_INTEGRITY)
  }
}
