/**
 The in-memory tenant store and credential vault (packages/server/src/tenants/registry-memory.ts).
 The clock is a parameter, in milliseconds.
 */
module TenantRegistry {
  import opened Options

  datatype Result<T> = Ok(value: T) | NotFound | Conflict

  datatype TenantState = Created | Onboarding | ProductionReady | Failed | Revoked

  /** `profile` stands for the descriptive fields; `scenarios` and `lastError` are the onboarding progress. */
  datatype Tenant = Tenant(
    profile: string, state: TenantState, scenarios: map<string, bool>, lastError: Option<string>,
    productionExpiry: Option<int>, claimedBy: Option<string>, claimExpiresAt: Option<int>,
    createdAt: int, updatedAt: int, deletedAt: Option<int>)

  datatype StateOptions = StateOptions(
    expectedFrom: Option<TenantState>, claimedBy: Option<string>, claimExpiresAt: Option<int>,
    lastError: Option<string>)

  const NO_OPTIONS := StateOptions(None, None, None, None)

  // ---- What each operation does to a record --------------------------------------------------

  function NewTenant(profile: string, now: int): Tenant {
    Tenant(profile, Created, map[], None, None, None, None, now, now, None)
  }

  /** `requireRecord` succeeds. */
  predicate IsLive(records: map<string, Tenant>, ref: string) {
    ref in records && records[ref].deletedAt.None?
  }

  /** A claim is stale when it has expired, or when it has no expiry at all. */
  predicate IsStaleClaim(t: Tenant, now: int) {
    t.state == Onboarding && (t.claimExpiresAt.None? || t.claimExpiresAt.value <= now)
  }

  /** The compare half of `setState`. */
  predicate MayTransition(t: Tenant, expectedFrom: Option<TenantState>, now: int) {
    expectedFrom.None? ||
    (t.state == expectedFrom.value && expectedFrom.value != Onboarding) ||
    IsStaleClaim(t, now)
  }

  function WithState(t: Tenant, next: TenantState, options: StateOptions, now: int): Tenant {
    t.(state := next, updatedAt := now, claimExpiresAt := options.claimExpiresAt, claimedBy := options.claimedBy,
       lastError := if options.lastError.Some? then options.lastError else t.lastError)
  }

  function AfterSetState(records: map<string, Tenant>, ref: string, next: TenantState, options: StateOptions, now: int)
    : (map<string, Tenant>, Result<Tenant>)
  {
    if !IsLive(records, ref) then (records, NotFound)
    else if !MayTransition(records[ref], options.expectedFrom, now) then (records, Conflict)
    else
      var t := WithState(records[ref], next, options, now);
      (records[ref := t], Ok(t))
  }

  function AfterProgress(
    records: map<string, Tenant>, ref: string, scenario: string, passed: bool, now: int): map<string, Tenant> {
    if !IsLive(records, ref) then records
    else
      var t := records[ref];
      records[ref := t.(scenarios := t.scenarios[scenario := passed], updatedAt := now)]
  }

  function AfterExpiry(records: map<string, Tenant>, ref: string, expiresAt: int, now: int): map<string, Tenant> {
    if !IsLive(records, ref) then records
    else records[ref := records[ref].(productionExpiry := Some(expiresAt), updatedAt := now)]
  }

  function AfterPatch(records: map<string, Tenant>, ref: string, profile: string, now: int): map<string, Tenant> {
    if !IsLive(records, ref) then records
    else records[ref := records[ref].(profile := profile, updatedAt := now)]
  }

  function AfterSoftDelete(records: map<string, Tenant>, ref: string, now: int): map<string, Tenant> {
    if !IsLive(records, ref) then records
    else records[ref := records[ref].(state := Revoked, deletedAt := Some(now), updatedAt := now)]
  }

  function AfterCreate(records: map<string, Tenant>, ref: string, profile: string, now: int): map<string, Tenant> {
    if ref in records then records else records[ref := NewTenant(profile, now)]
  }

  // ---- The store -------------------------------------------------------------------------------

  class TenantStore {
    var records: map<string, Tenant>

    constructor ()
      ensures records == map[]
    {
      records := map[];
    }

    method Create(ref: string, profile: string, now: int) returns (r: Result<Tenant>)
      modifies this
      ensures records == AfterCreate(old(records), ref, profile, now)
      ensures r == if ref in old(records) then Conflict else Ok(NewTenant(profile, now))
      ensures r.Ok? ==>
                records == old(records)[ref := r.value] && r.value.state == Created && r.value.profile == profile &&
                r.value.claimedBy == None && r.value.claimExpiresAt == None && r.value.lastError == None &&
                r.value.deletedAt == None && r.value.productionExpiry == None && r.value.scenarios == map[]
    {
      if ref in records {
        return Conflict;
      }
      records := records[ref := NewTenant(profile, now)];
      return Ok(records[ref]);
    }

    method Get(ref: string) returns (found: Option<Tenant>)
      ensures found == if IsLive(records, ref) then Some(records[ref]) else None
    {
      if ref !in records || records[ref].deletedAt.Some? {
        return None;
      }
      return Some(records[ref]);
    }

    method Patch(ref: string, profile: string, now: int) returns (r: Result<Tenant>)
      modifies this
      ensures records == AfterPatch(old(records), ref, profile, now)
      ensures r == if IsLive(old(records), ref) then Ok(records[ref]) else NotFound
      ensures r.Ok? ==>
                records == old(records)[ref := old(records)[ref].(profile := profile, updatedAt := now)]
      ensures !r.Ok? ==> records == old(records)
    {
      if ref !in records || records[ref].deletedAt.Some? {
        return NotFound;
      }
      records := records[ref := records[ref].(profile := profile, updatedAt := now)];
      return Ok(records[ref]);
    }

    method SetState(ref: string, next: TenantState, options: StateOptions, now: int) returns (r: Result<Tenant>)
      modifies this
      ensures (records, r) == AfterSetState(old(records), ref, next, options, now)
      ensures r == NotFound <==> ref !in old(records) || old(records)[ref].deletedAt.Some?
      ensures r.Ok? ==> records == old(records)[ref := r.value]
      ensures !r.Ok? ==> records == old(records)
      ensures r.Ok? ==>
                r.value.state == next && r.value.claimedBy == options.claimedBy &&
                r.value.claimExpiresAt == options.claimExpiresAt && r.value.updatedAt == now &&
                r.value.lastError ==
                  if options.lastError.None? then old(records)[ref].lastError else options.lastError
    {
      if ref !in records || records[ref].deletedAt.Some? {
        return NotFound;
      }
      var existing := records[ref];
      if options.expectedFrom.Some? {
        var lockNotHeld := existing.state == Onboarding &&
                           (existing.claimExpiresAt.None? || existing.claimExpiresAt.value <= now);
        var fromExactMatch := existing.state == options.expectedFrom.value && options.expectedFrom.value != Onboarding;
        if !fromExactMatch && !lockNotHeld {
          return Conflict;
        }
      }
      var updated := existing.(state := next, updatedAt := now);
      updated := updated.(claimExpiresAt := options.claimExpiresAt);
      updated := updated.(claimedBy := options.claimedBy);
      if options.lastError.Some? {
        updated := updated.(lastError := options.lastError);
      }
      records := records[ref := updated];
      return Ok(updated);
    }

    method RecordOnboardingProgress(ref: string, scenario: string, passed: bool, now: int) returns (r: Result<()>)
      modifies this
      ensures records == AfterProgress(old(records), ref, scenario, passed, now)
      ensures r == if IsLive(old(records), ref) then Ok(()) else NotFound
    {
      if ref !in records || records[ref].deletedAt.Some? {
        return NotFound;
      }
      var existing := records[ref];
      records := records[ref := existing.(scenarios := existing.scenarios[scenario := passed], updatedAt := now)];
      return Ok(());
    }

    method SetProductionExpiry(ref: string, expiresAt: int, now: int) returns (r: Result<()>)
      modifies this
      ensures records == AfterExpiry(old(records), ref, expiresAt, now)
      ensures r == if IsLive(old(records), ref) then Ok(()) else NotFound
    {
      if ref !in records || records[ref].deletedAt.Some? {
        return NotFound;
      }
      records := records[ref := records[ref].(productionExpiry := Some(expiresAt), updatedAt := now)];
      return Ok(());
    }

    method SoftDelete(ref: string, now: int) returns (r: Result<()>)
      modifies this
      ensures records == AfterSoftDelete(old(records), ref, now)
      ensures r.Ok? ==>
                ref in old(records) && records == old(records)[ref := old(records)[ref].(
                  state := Revoked, deletedAt := Some(now), updatedAt := now)]
      ensures !r.Ok? ==> records == old(records)
      ensures r == if ref !in old(records) then NotFound else if !IsLive(old(records), ref) then Conflict else Ok(())
    {
      if ref !in records {
        return NotFound;
      }
      if records[ref].deletedAt.Some? {
        return Conflict;
      }
      records := records[ref := records[ref].(state := Revoked, deletedAt := Some(now), updatedAt := now)];
      return Ok(());
    }
  }

  // ---- The vault -------------------------------------------------------------------------------

  datatype Material<S> = Material(
    privateKey: S, productionCertificate: S, productionToken: S, productionSecret: S,
    complianceCertificate: Option<S>, complianceToken: Option<S>, complianceSecret: Option<S>)

  /** A cipher as the vault uses it: encryption may fail to be undone only for rows it did not write. */
  datatype Cipher<!E> = Cipher(encrypt: string -> E, decrypt: E -> Option<string>)

  ghost predicate IsInverse<E>(cipher: Cipher<E>) {
    forall s :: cipher.decrypt(cipher.encrypt(s)) == Some(s)
  }

  function MapOption<A, B>(f: A -> B, o: Option<A>): Option<B> {
    match o case None => None case Some(a) => Some(f(a))
  }

  function Encrypted<E>(cipher: Cipher<E>, m: Material<string>): Material<E> {
    Material(cipher.encrypt(m.privateKey), cipher.encrypt(m.productionCertificate),
             cipher.encrypt(m.productionToken), cipher.encrypt(m.productionSecret),
             MapOption(cipher.encrypt, m.complianceCertificate), MapOption(cipher.encrypt, m.complianceToken),
             MapOption(cipher.encrypt, m.complianceSecret))
  }

  /** Decryption of an optional field: an absent field stays absent. */
  function DecryptOptional<E>(cipher: Cipher<E>, o: Option<E>): Option<Option<string>> {
    match o
    case None => Some(None)
    case Some(e) => match cipher.decrypt(e) case None => None case Some(s) => Some(Some(s))
  }

  datatype VaultAnswer = Absent | DecryptFailed | Found(material: Material<string>)

  /** Every field of the row decrypts to the field of `m`. */
  predicate Reads<E>(cipher: Cipher<E>, row: Material<E>, m: Material<string>) {
    && cipher.decrypt(row.privateKey) == Some(m.privateKey)
    && cipher.decrypt(row.productionCertificate) == Some(m.productionCertificate)
    && cipher.decrypt(row.productionToken) == Some(m.productionToken)
    && cipher.decrypt(row.productionSecret) == Some(m.productionSecret)
    && DecryptOptional(cipher, row.complianceCertificate) == Some(m.complianceCertificate)
    && DecryptOptional(cipher, row.complianceToken) == Some(m.complianceToken)
    && DecryptOptional(cipher, row.complianceSecret) == Some(m.complianceSecret)
  }

  /** The one answer that the vault gives for `ref`: a single field that does not decrypt makes it fail. */
  ghost predicate IsAnswer<E>(cipher: Cipher<E>, rows: map<string, Material<E>>, ref: string, answer: VaultAnswer) {
    match answer
    case Absent => ref !in rows
    case Found(m) => ref in rows && Reads(cipher, rows[ref], m)
    case DecryptFailed => ref in rows && forall m :: !Reads(cipher, rows[ref], m)
  }

  class CredentialVault<E> {
    const cipher: Cipher<E>
    var rows: map<string, Material<E>>

    constructor (cipher: Cipher<E>)
      ensures this.cipher == cipher && rows == map[]
    {
      this.cipher := cipher;
      rows := map[];
    }

    /** What was put is what `Get` answers from then on; the answers for other references stay the same. */
    method Put(ref: string, material: Material<string>)
      modifies this
      ensures rows == old(rows)[ref := Encrypted(cipher, material)]
      ensures IsInverse(cipher) ==> IsAnswer(cipher, rows, ref, Found(material))
      ensures forall other, a :: other != ref ==>
        (IsAnswer(cipher, rows, other, a) <==> IsAnswer(cipher, old(rows), other, a))
    {
      rows := rows[ref := Encrypted(cipher, material)];
    }

    method Get(ref: string) returns (answer: VaultAnswer)
      ensures IsAnswer(cipher, rows, ref, answer)
      ensures forall a :: IsAnswer(cipher, rows, ref, a) ==> a == answer
    {
      if ref !in rows {
        return Absent;
      }
      var row := rows[ref];
      var compCert := DecryptOptional(cipher, row.complianceCertificate);
      var compToken := DecryptOptional(cipher, row.complianceToken);
      var compSecret := DecryptOptional(cipher, row.complianceSecret);
      var key, cert := cipher.decrypt(row.privateKey), cipher.decrypt(row.productionCertificate);
      var token, secret := cipher.decrypt(row.productionToken), cipher.decrypt(row.productionSecret);
      if compCert.None? || compToken.None? || compSecret.None? || key.None? ||
         cert.None? || token.None? || secret.None? {
        return DecryptFailed;
      }
      var m := Material(key.value, cert.value, token.value, secret.value,
        compCert.value, compToken.value, compSecret.value);
      assert Reads(cipher, row, m);
      return Found(m);
    }
  }
}
