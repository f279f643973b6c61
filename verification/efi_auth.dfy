/**
  lib/efi.py, the stateful part: the `timestamp()` clock, certificates and
  `EFIAuth`, the handle on one secure-boot variable (PK, KEK, db or dbx) with
  its signature list and, once signed, its authenticated data.  Key files,
  temporary files and the external signing tools are not modelled: a
  certificate is its pair of file names, and `signer(cert)` is the PKCS#7
  signature that `sign(payload, cert.key, cert.pub)` computes.
*/
module EfiAuthState {
  import opened Wrappers
  import opened EfiBytes
  import opened Efi
  import opened EfiSigning

  /**
    `time_seed` and `time_offset`.  `timestamp()` adds one second to the offset
    and returns the seed plus the offset; times are counted in seconds, and
    `issued` records every time handed out.
  */
  class Clock {
    const seed: int
    var offset: int
    ghost var issued: seq<int>

    ghost predicate Valid()
      reads this
    {
      offset >= 1
      && (forall i, j :: 0 <= i < j < |issued| ==> issued[i] < issued[j])
      && (forall i :: 0 <= i < |issued| ==> issued[i] <= seed + offset)
    }

    /** Module import: the seed is the current time and the offset starts at 1. */
    constructor (seed: int)
      ensures Valid() && this.seed == seed && offset == 1 && issued == []
    {
      this.seed := seed;
      offset := 1;
      issued := [];
    }

    /** `timestamp()`: strictly later than every time handed out before. */
    method Timestamp() returns (t: int)
      requires Valid()
      modifies this
      ensures Valid()
      ensures offset == old(offset) + 1 && t == seed + offset
      ensures issued == old(issued) + [t]
      ensures forall i :: 0 <= i < |old(issued)| ==> old(issued)[i] < t
    {
      offset := offset + 1;
      t := seed + offset;
      issued := issued + [t];
    }
  }

  /** A certificate: the file holding the public certificate and, for one we can sign with, the private key file. */
  datatype Certificate = Certificate(pub: string, key: Option<string>)

  /** An entry of `other_certs`: a certificate file name, or a certificate. */
  datatype OtherCert = CertFile(path: string) | CertObject(cert: Certificate)

  /**
    `Certificate.sign_efi_sig_db`: signs `data` as variable `variable` with this
    certificate, at the next `timestamp()`.  `civil` turns seconds into a date.
  */
  method CertificateSignEfiSigDb(cert: Certificate, variable: string, data: Bytes, guid: Option<Uuid>, clock: Clock,
                                 civil: int -> Time, signer: Certificate -> (Bytes -> Bytes)) returns (r: Result<Bytes>)
    requires cert.key.Some?
    requires clock.Valid()
    modifies clock
    ensures clock.Valid() && clock.offset == old(clock.offset) + 1
    ensures clock.issued == old(clock.issued) + [clock.seed + clock.offset]
    ensures r == SignEfiSigDb(data, variable, signer(cert), civil(clock.seed + clock.offset), guid)
  {
    var t := clock.Timestamp();
    r := SignEfiSigDb(data, variable, signer(cert), civil(t), guid);
  }

  /** The public-certificate file of an entry of `other_certs`. */
  function PubOf(c: OtherCert): string
  {
    match c
    case CertFile(path) => path
    case CertObject(cert) => cert.pub
  }

  /** `_get_efi_signature_list`'s files: the owner's public certificate, if any, then each other certificate's, in order. */
  function SignatureListPaths(owner: Option<Certificate>, others: seq<OtherCert>): (r: seq<string>)
    ensures owner.None? ==> |r| == |others| && forall i :: 0 <= i < |others| ==> r[i] == PubOf(others[i])
    ensures owner.Some? ==> |r| == 1 + |others| && r[0] == owner.value.pub
                            && forall i :: 0 <= i < |others| ==> r[1 + i] == PubOf(others[i])
    decreases |others|
  {
    if others == [] then (if owner.Some? then [owner.value.pub] else [])
    else SignatureListPaths(owner, others[..|others| - 1]) + [PubOf(others[|others| - 1])]
  }

  /** `name or self.name`: an empty or missing name keeps the current one. */
  function NameOr(name: Option<string>, current: string): string
  {
    if name.Some? && name.value != "" then name.value else current
  }

  /** `EFIAuth`: one secure-boot variable, its signature list and, once signed, its authenticated data. */
  class EfiAuth {
    const name: string
    const guid: Uuid
    const ownerCert: Option<Certificate>
    const otherCerts: seq<OtherCert>
    var esl: Bytes
    var authData: Option<Bytes>

    /** The constructor's assertions: a secure-boot variable, its GUID, and an owner only with a private key. */
    ghost predicate Valid()
      reads this
    {
      name in SecureBootVariables && GetSecureBootGuid(name) == Ok(guid)
      && (ownerCert.None? || ownerCert.value.key.Some?)
    }

    constructor (name: string, ownerCert: Option<Certificate>, otherCerts: seq<OtherCert>, esl: Bytes)
      requires name in SecureBootVariables
      requires ownerCert.None? || ownerCert.value.key.Some?
      ensures Valid()
      ensures this.name == name && this.ownerCert == ownerCert && this.otherCerts == otherCerts
      ensures this.esl == esl && authData.None?
    {
      this.name := name;
      this.guid := GetSecureBootGuid(name).value;
      this.ownerCert := ownerCert;
      this.otherCerts := otherCerts;
      this.esl := esl;
      this.authData := None;
    }

    /** `is_signed`. */
    predicate IsSigned()
      reads this
    {
      authData.Some?
    }

    /**
      `sign_with(signer)`: signs this variable's signature list with the signer's
      owner certificate under this variable's name and GUID, at the next
      timestamp.  An error leaves the variable as it was.
    */
    method SignWith(signer: EfiAuth, clock: Clock, civil: int -> Time, sign: Certificate -> (Bytes -> Bytes)) returns (r: Result<()>)
      requires signer.Valid() && signer.ownerCert.Some?
      requires clock.Valid()
      modifies this, clock
      ensures clock.Valid() && clock.offset == old(clock.offset) + 1
      ensures clock.issued == old(clock.issued) + [clock.seed + clock.offset]
      ensures esl == old(esl)
      ensures var out := SignEfiSigDb(esl, name, sign(signer.ownerCert.value), civil(clock.seed + clock.offset), Some(guid));
              (r.Ok? <==> out.Ok?)
              && (r.Ok? ==> authData == Some(out.value))
              && (r.Err? ==> authData == old(authData))
    {
      var out := CertificateSignEfiSigDb(signer.ownerCert.value, name, esl, Some(guid), clock, civil, sign);
      if out.Err? {
        return Err(out.msg);
      }
      authData := Some(out.value);
      r := Ok(());
    }

    /** `sign_auth(to_be_signed)`: `to_be_signed.sign_with(self)`. */
    method SignAuth(toBeSigned: EfiAuth, clock: Clock, civil: int -> Time, sign: Certificate -> (Bytes -> Bytes)) returns (r: Result<()>)
      requires Valid() && ownerCert.Some?
      requires clock.Valid()
      modifies toBeSigned, clock
      ensures clock.Valid() && clock.offset == old(clock.offset) + 1
      ensures toBeSigned.esl == old(toBeSigned.esl)
      ensures var out := SignEfiSigDb(toBeSigned.esl, toBeSigned.name, sign(ownerCert.value),
                                      civil(clock.seed + clock.offset), Some(toBeSigned.guid));
              (r.Ok? <==> out.Ok?)
              && (r.Ok? ==> toBeSigned.authData == Some(out.value))
              && (r.Err? ==> toBeSigned.authData == old(toBeSigned.authData))
    {
      r := toBeSigned.SignWith(this, clock, civil, sign);
    }

    /**
      `copy(name)`: a new handle, under `name` if one is given, with the same
      certificates, the same signature list and the same authenticated data
      (which still signs the old name).
    */
    method Copy(newName: Option<string>) returns (c: EfiAuth)
      requires Valid() && ownerCert.Some?
      requires NameOr(newName, name) in SecureBootVariables
      ensures fresh(c) && c.Valid()
      ensures c.name == NameOr(newName, name) && c.ownerCert == ownerCert && c.otherCerts == otherCerts
      ensures c.esl == esl && c.authData == authData
    {
      c := new EfiAuth(NameOr(newName, name), ownerCert, otherCerts, esl);
      c.authData := authData;
    }

    /**
      `sign_image(image)`: sbsign or, without it, pesign writes the signed image
      under the name `get_signed_name` gives, which is returned.
    */
    method SignImage(image: string) returns (signed: string)
      requires ownerCert.Some?
      ensures SplitExt(signed).1 == SplitExt(image).1
      ensures SplitExt(signed).0 == SplitExt(image).0 + "-signed"
    {
      SignedNameKeepsExtension(image);
      signed := GetSignedName(image);
    }
  }

  /**
    `EFIAuth(name, owner_cert, other_certs)`: builds the signature list of the
    owner's and the other certificates; the error of the first file that cannot
    be loaded or listed is raised.
  */
  method NewEfiAuth(name: string, ownerCert: Option<Certificate>, otherCerts: seq<OtherCert>,
                    load: string -> Result<Bytes>) returns (r: Result<EfiAuth>)
    requires name in SecureBootVariables
    requires ownerCert.None? || ownerCert.value.key.Some?
    ensures var db := SigDb(SignatureListPaths(ownerCert, otherCerts), load);
            (r.Ok? <==> db.Ok?)
            && (r.Err? ==> r.msg == db.msg)
            && (r.Ok? ==> fresh(r.value) && r.value.Valid() && r.value.name == name
                          && r.value.ownerCert == ownerCert && r.value.otherCerts == otherCerts
                          && r.value.esl == db.value && !r.value.IsSigned())
  {
    var db := CertsToSigDb(Several(SignatureListPaths(ownerCert, otherCerts)), load);
    if db.Err? {
      return Err(db.msg);
    }
    var auth := new EfiAuth(name, ownerCert, otherCerts, db.value);
    r := Ok(auth);
  }
}
