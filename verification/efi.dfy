/**
  lib/efi.py: building UEFI secure-boot variables.  A certificate becomes an
  EFI_SIGNATURE_LIST (section 32.4.1 of the UEFI Specification 2.8), a list of
  certificates a signature database, and a database signed with a PKCS#7 blob
  is prefixed by an EFI_VARIABLE_AUTHENTICATION_2 header (section 8.2 of the
  UEFI Specification).  The PKCS#7 signature itself is an opaque function of
  the payload; certificate files are read through a `load` function.
*/
module Efi {
  import opened Wrappers
  import opened EfiBytes

  // ---------------------------------------------------------------- constants

  const EfiAtAttrs: nat := 0x27
  const WinCertTypeEfiGuid: nat := 0x0EF1
  const WinCertRevision: nat := 0x200

  /** EFI_SIGNATURE_LIST: SignatureType, SignatureListSize, SignatureHeaderSize, SignatureSize. */
  const SignatureListKinds: seq<Kind> := [Bytes16] + [U32] + [U32] + [U32]
  /** EFI_SIGNATURE_DATA: SignatureOwner (the certificate follows). */
  const SignatureDataKinds: seq<Kind> := [Bytes16]
  /** WIN_CERTIFICATE: dwLength, wRevision, wCertificateType. */
  const WinCertificateKinds: seq<Kind> := [U32] + [U16] + [U16]
  /** EFI_TIME: Year, Month, Day, Hour, Minute, Second, Pad1, Nanosecond, TimeZone, Daylight, Pad2. */
  const EfiTimeKinds: seq<Kind> :=
    [U16] + [U8] + [U8] + [U8] + [U8] + [U8] + [U8] + [U32] + [U16] + [U8] + [U8]

  const EfiSignatureListSize: nat := 28
  const EfiSignatureDataSize: nat := 16
  const WinCertificateUefiGuidOffset: nat := 24

  /** `struct.calcsize` of EFI_SIGNATURE_LIST. */
  lemma SignatureListSize()
    ensures Size(SignatureListKinds) == EfiSignatureListSize
  {
    SizeSnoc([], Bytes16);
    SizeSnoc([Bytes16], U32);
    SizeSnoc([Bytes16] + [U32], U32);
    SizeSnoc([Bytes16] + [U32] + [U32], U32);
    AppendNil([Bytes16]);
  }

  /** `struct.calcsize` of EFI_SIGNATURE_DATA. */
  lemma SignatureDataSize()
    ensures Size(SignatureDataKinds) == EfiSignatureDataSize
  {
    SizeSnoc([], Bytes16);
    AppendNil([Bytes16]);
  }

  /** `struct.calcsize` of WIN_CERTIFICATE_UEFI_GUID. */
  lemma WinCertificateUefiGuidSize()
    ensures Size(WinCertificateKinds + [Bytes16]) == WinCertificateUefiGuidOffset
  {
    SizeSnoc([], U32);
    SizeSnoc([U32], U16);
    SizeSnoc([U32] + [U16], U16);
    SizeSnoc(WinCertificateKinds, Bytes16);
    AppendNil([U32]);
  }

  /** `struct.calcsize` of EFI_TIME. */
  lemma EfiTimeSize()
    ensures Size(EfiTimeKinds) == 16
  {
    var f: seq<Kind> := [U16];
    SizeSnoc([], U16);
    AppendNil([U16]);
    SizeSnoc(f, U8);
    SizeSnoc(f + [U8], U8);
    SizeSnoc(f + [U8] + [U8], U8);
    SizeSnoc(f + [U8] + [U8] + [U8], U8);
    SizeSnoc(f + [U8] + [U8] + [U8] + [U8], U8);
    SizeSnoc(f + [U8] + [U8] + [U8] + [U8] + [U8], U8);
    SizeSnoc(f + [U8] + [U8] + [U8] + [U8] + [U8] + [U8], U32);
    SizeSnoc(f + [U8] + [U8] + [U8] + [U8] + [U8] + [U8] + [U32], U16);
    SizeSnoc(f + [U8] + [U8] + [U8] + [U8] + [U8] + [U8] + [U32] + [U16], U8);
    SizeSnoc(f + [U8] + [U8] + [U8] + [U8] + [U8] + [U8] + [U32] + [U16] + [U8], U8);
  }

  type Uuid = g: Guid | WellFormed(g) witness Guid(0, 0, 0, [0, 0, 0, 0, 0, 0, 0, 0])

  const GlobalVariableGuid: Uuid := Guid(0x8BE4DF61, 0x93CA, 0x11D2, [0xAA, 0x0D, 0x00, 0xE0, 0x98, 0x03, 0x2B, 0x8C])
  const ImageSecurityDatabaseGuid: Uuid := Guid(0xD719B2CB, 0x3D3A, 0x4596, [0xA3, 0xBC, 0xDA, 0xD0, 0x0E, 0x67, 0x65, 0x6F])
  const Pkcs7Guid: Uuid := Guid(0x4AAFD29D, 0x68DF, 0x49EE, [0x8A, 0xA9, 0x34, 0x7D, 0x37, 0x56, 0x65, 0xA7])
  const VatesGuid: Uuid := Guid(0xFDD69FA4, 0x3E66, 0x11EB, [0x8C, 0x1B, 0x98, 0x3B, 0x8F, 0xB6, 0xDA, 0xCD])
  const X509Guid: Uuid := Guid(0xA5C059A1, 0x94E4, 0x4AA7, [0x87, 0xB5, 0xAB, 0x15, 0x5C, 0x2B, 0xF0, 0x72])

  /** EFI_CERT_X509_GUID as the bytes `pack_guid` produces. */
  function X509GuidBytes(): (r: Bytes)
    ensures |r| == 16
  {
    AsBytes(X509Guid)
  }

  /** EFI_CERT_X509_GUID in lib/efi.py is `pack_guid` of the X.509 GUID's fields. */
  lemma X509GuidPacked()
    ensures PackGuid(0xA5C059A1, 0x94E4, 0x4AA7, [0x87, 0xB5, 0xAB, 0x15, 0x5C, 0x2B, 0xF0, 0x72]) == Ok(X509GuidBytes())
  {
    PackGuidIsAsBytes(X509Guid);
  }

  /** EFI_CERT_PKCS7_GUID in lib/efi.py is `pack_guid` of the PKCS#7 GUID's fields. */
  lemma Pkcs7GuidPacked()
    ensures PackGuid(0x4AAFD29D, 0x68DF, 0x49EE, [0x8A, 0xA9, 0x34, 0x7D, 0x37, 0x56, 0x65, 0xA7]) == Ok(AsBytes(Pkcs7Guid))
  {
    PackGuidIsAsBytes(Pkcs7Guid);
  }

  /** VATES_GUID in lib/efi.py is `pack_guid` of the Vates owner GUID's fields. */
  lemma VatesGuidPacked()
    ensures PackGuid(0xFDD69FA4, 0x3E66, 0x11EB, [0x8C, 0x1B, 0x98, 0x3B, 0x8F, 0xB6, 0xDA, 0xCD]) == Ok(AsBytes(VatesGuid))
  {
    PackGuidIsAsBytes(VatesGuid);
  }

  // ---------------------------------------------------------------- secure-boot variables

  const SecureBootVariables: set<string> := {"PK", "KEK", "db", "dbx"}

  /** `get_secure_boot_guid`: the vendor GUID of a secure-boot variable, KeyError for any other name. */
  function GetSecureBootGuid(variable: string): (r: Result<Uuid>)
    ensures r.Ok? <==> variable in SecureBootVariables
    ensures r.Ok? ==> (r.value == GlobalVariableGuid <==> variable in {"PK", "KEK"})
    ensures r.Ok? ==> (r.value == ImageSecurityDatabaseGuid <==> variable in {"db", "dbx"})
  {
    if variable == "PK" || variable == "KEK" then Ok(GlobalVariableGuid)
    else if variable == "db" || variable == "dbx" then Ok(ImageSecurityDatabaseGuid)
    else Err("KeyError: " + variable)
  }

  // ---------------------------------------------------------------- EFI_SIGNATURE_LIST

  /** The 16-byte form of a GUID handed to '16s' is kept as it is. */
  lemma FieldGuid(g: Uuid)
    ensures Field(Bytes16, Raw(AsBytes(g))) == AsBytes(g)
  {
    assert AsBytes(g)[..16] == AsBytes(g);
  }

  lemma Display4<T>(a: T, b: T, c: T, d: T)
    ensures [a, b, c, d] == [a] + [b] + [c] + [d]
  {
  }

  /** `efi_pack(EFI_SIGNATURE_LIST, ...)` for a list of `size` bytes and signature type `g`. */
  lemma SigListHeader(g: Bytes, size: nat)
    requires |g| == 16 && EfiSignatureListSize <= size < Pow256(4)
    ensures EfiPack(SignatureListKinds, [Raw(g), Int(size), Int(0), Int(size - EfiSignatureListSize)])
            == Ok(g + LE(size, 4) + LE(0, 4) + LE(size - EfiSignatureListSize, 4))
  {
    var c := size - 28;
    Display4(Raw(g), Int(size), Int(0), Int(c));
    EfiPackOne(Bytes16, Raw(g));
    assert g[..16] == g;
    EfiPackSnoc([Bytes16], [Raw(g)], U32, Int(size));
    EfiPackSnoc([Bytes16] + [U32], [Raw(g)] + [Int(size)], U32, Int(0));
    EfiPackSnoc([Bytes16] + [U32] + [U32], [Raw(g)] + [Int(size)] + [Int(0)], U32, Int(c));
  }

  /** Slices of a signature list with one signature. */
  lemma SigListSlices(g: Bytes, a: Bytes, b: Bytes, c: Bytes, o: Bytes, der: Bytes)
    requires |g| == 16 && |a| == 4 && |b| == 4 && |c| == 4 && |o| == 16
    ensures var e := g + a + b + c + o + der;
            e[..16] == g && e[16..20] == a && e[20..24] == b && e[24..28] == c && e[28..44] == o && e[44..] == der
  {
  }

  /** `efi_pack(EFI_SIGNATURE_DATA, owner)`. */
  lemma SigDataOwner()
    ensures EfiPack(SignatureDataKinds, [Raw(AsBytes(VatesGuid))]) == Ok(AsBytes(VatesGuid))
  {
    EfiPackOne(Bytes16, Raw(AsBytes(VatesGuid)));
    FieldGuid(VatesGuid);
    AppendNil([Bytes16]);
  }

  /**
    `cert_to_efi_sig_list` on a certificate already in DER form: a signature list
    holding one X.509 signature owned by the Vates GUID.  struct.error when the
    list size does not fit in 32 bits.
  */
  function CertToEfiSigList(der: Bytes): (r: Result<Bytes>)
  {
    var size := |der| + EfiSignatureListSize + EfiSignatureDataSize;
    var header :- EfiPack(SignatureListKinds, [Raw(X509GuidBytes()), Int(size), Int(0), Int(size - EfiSignatureListSize)]);
    SigDataOwner();
    var owner := EfiPack(SignatureDataKinds, [Raw(AsBytes(VatesGuid))]).value;
    Ok(header + owner + der)
  }

  /** A certificate fits a signature list iff the list size fits in 32 bits; the list is header, owner, certificate. */
  lemma {:induction false} CertToEfiSigListBytes(der: Bytes)
    ensures CertToEfiSigList(der).Ok? <==> |der| + EfiSignatureListSize + EfiSignatureDataSize < Pow256(4)
    ensures CertToEfiSigList(der).Ok? ==>
              var size := |der| + EfiSignatureListSize + EfiSignatureDataSize;
              CertToEfiSigList(der).value
              == X509GuidBytes() + LE(size, 4) + LE(0, 4) + LE(size - EfiSignatureListSize, 4) + AsBytes(VatesGuid) + der
  {
    var size := |der| + EfiSignatureListSize + EfiSignatureDataSize;
    if size < Pow256(4) {
      SigListHeader(X509GuidBytes(), size);
      SigDataOwner();
    } else {
      var args := [Raw(X509GuidBytes()), Int(size), Int(0), Int(size - EfiSignatureListSize)];
      EfiPackSucceeds(SignatureListKinds, args);
      assert SignatureListKinds[1] == U32 && args[1] == Int(size) && !Fits(U32, Int(size));
    }
  }

  /** The fields of a signature list, read back from its bytes. */
  lemma {:induction false} CertToEfiSigListLayout(der: Bytes)
    requires CertToEfiSigList(der).Ok?
    ensures var esl := CertToEfiSigList(der).value;
            |esl| == EfiSignatureListSize + EfiSignatureDataSize + |der|
            && esl[..16] == X509GuidBytes()
            && FromLE(esl[16..20]) == |esl|
            && FromLE(esl[20..24]) == 0
            && FromLE(esl[24..28]) == |esl| - EfiSignatureListSize
            && esl[28..44] == AsBytes(VatesGuid)
            && esl[44..] == der
  {
    CertToEfiSigListBytes(der);
    var size := |der| + 44;
    SigListSlices(X509GuidBytes(), LE(size, 4), LE(0, 4), LE(size - 28, 4), AsBytes(VatesGuid), der);
    LERoundTrip(size, 4);
    LERoundTrip(0, 4);
    LERoundTrip(size - 28, 4);
  }

  // ---------------------------------------------------------------- signature databases

  /** `certs_to_sig_db`'s argument: a lone path string, or a list of paths. */
  datatype CertPaths = Lone(path: string) | Several(paths: seq<string>)

  function PathList(certs: CertPaths): seq<string>
  {
    if certs.Lone? then [certs.path] else certs.paths
  }

  /**
    The signature database of a list of certificate files: their signature lists
    in order.  `load` reads a file and yields its certificate in DER form; the first
    failure, in list order, is the one raised.
  */
  function SigDb(paths: seq<string>, load: string -> Result<Bytes>): Result<Bytes>
  {
    if paths == [] then Ok([])
    else
      var der :- load(paths[0]);
      var esl :- CertToEfiSigList(der);
      var rest :- SigDb(paths[1..], load);
      Ok(esl + rest)
  }

  /** A certificate that can go in a signature list. */
  predicate Listable(der: Result<Bytes>)
  {
    der.Ok? && |der.value| + EfiSignatureListSize + EfiSignatureDataSize < Pow256(4)
  }

  /** The database is built iff every certificate loads and fits a signature list. */
  lemma {:induction false} SigDbSucceeds(paths: seq<string>, load: string -> Result<Bytes>)
    ensures SigDb(paths, load).Ok? <==> forall i :: 0 <= i < |paths| ==> Listable(load(paths[i]))
  {
    if paths != [] {
      SigDbSucceeds(paths[1..], load);
      assert forall i :: 1 <= i < |paths| ==> paths[1..][i - 1] == paths[i];
      if load(paths[0]).Ok? {
        CertToEfiSigListBytes(load(paths[0]).value);
      }
    }
  }

  /**
    Reading a signature database back, as firmware does: each list must carry the
    X.509 type GUID and a SignatureListSize that covers its header, its owner and
    SignatureSize; the certificate is what follows the owner.
  */
  function ParseSigDb(db: Bytes): Option<seq<Bytes>>
    decreases |db|
  {
    if db == [] then Some([])
    else if |db| < EfiSignatureListSize + EfiSignatureDataSize || db[..16] != X509GuidBytes() then None
    else
      var size := FromLE(db[16..20]);
      if size < EfiSignatureListSize + EfiSignatureDataSize || size > |db| || FromLE(db[24..28]) != size - EfiSignatureListSize then None
      else
        match ParseSigDb(db[size..])
        case None => None
        case Some(rest) => Some([db[EfiSignatureListSize + EfiSignatureDataSize..size]] + rest)
  }

  /** Reading past one signature list built from `der`. */
  lemma {:induction false} ParseSigDbCons(der: Bytes, rest: Bytes)
    requires CertToEfiSigList(der).Ok?
    ensures ParseSigDb(CertToEfiSigList(der).value + rest)
            == if ParseSigDb(rest).Some? then Some([der] + ParseSigDb(rest).value) else None
  {
    var esl := CertToEfiSigList(der).value;
    CertToEfiSigListLayout(der);
    var db := esl + rest;
    assert db[..16] == esl[..16] && db[16..20] == esl[16..20] && db[24..28] == esl[24..28];
    assert db[|esl|..] == rest && db[44..|esl|] == der;
  }

  /** A database built from certificate files holds exactly their certificates, in order. */
  lemma {:induction false} SigDbRoundTrip(paths: seq<string>, load: string -> Result<Bytes>)
    requires SigDb(paths, load).Ok?
    ensures ParseSigDb(SigDb(paths, load).value).Some?
    ensures var ders := ParseSigDb(SigDb(paths, load).value).value;
            |ders| == |paths| && forall i :: 0 <= i < |paths| ==> load(paths[i]) == Ok(ders[i])
  {
    if paths != [] {
      var der := load(paths[0]).value;
      SigDbRoundTrip(paths[1..], load);
      var rest := SigDb(paths[1..], load).value;
      ParseSigDbCons(der, rest);
      assert SigDb(paths, load).value == CertToEfiSigList(der).value + rest;
      var tail := ParseSigDb(rest).value;
      forall i | 1 <= i < |paths|
        ensures load(paths[i]) == Ok(([der] + tail)[i])
      {
        assert paths[1..][i - 1] == paths[i];
      }
    }
  }

  /** A database of at least one certificate starts with EFI_CERT_X509_GUID. */
  lemma SigDbStartsWithX509(paths: seq<string>, load: string -> Result<Bytes>)
    requires SigDb(paths, load).Ok? && paths != []
    ensures |SigDb(paths, load).value| >= 16 && SigDb(paths, load).value[..16] == X509GuidBytes()
  {
    var der := load(paths[0]).value;
    CertToEfiSigListLayout(der);
    var esl := CertToEfiSigList(der).value;
    var rest := SigDb(paths[1..], load).value;
    assert SigDb(paths, load).value == esl + rest;
    assert (esl + rest)[..16] == esl[..16];
  }

  /** Prefixing a partial database to the outcome of the rest of the loop. */
  function Prepend(db: Bytes, r: Result<Bytes>): Result<Bytes>
  {
    if r.Ok? then Ok(db + r.value) else r
  }

  /** One more iteration of `certs_to_sig_db`'s loop. */
  lemma SigDbStep(paths: seq<string>, i: nat, load: string -> Result<Bytes>, db: Bytes)
    requires i < |paths|
    ensures load(paths[i]).Err? ==> Prepend(db, SigDb(paths[i..], load)) == Err(load(paths[i]).msg)
    ensures load(paths[i]).Ok? && CertToEfiSigList(load(paths[i]).value).Err? ==>
              Prepend(db, SigDb(paths[i..], load)) == Err(CertToEfiSigList(load(paths[i]).value).msg)
    ensures load(paths[i]).Ok? && CertToEfiSigList(load(paths[i]).value).Ok? ==>
              Prepend(db, SigDb(paths[i..], load))
              == Prepend(db + CertToEfiSigList(load(paths[i]).value).value, SigDb(paths[i + 1..], load))
  {
    var q := paths[i..];
    assert q[0] == paths[i] && q[1..] == paths[i + 1..];
    var der := load(paths[i]);
    if der.Ok? {
      var esl := CertToEfiSigList(der.value);
      if esl.Ok? {
        var rest := SigDb(paths[i + 1..], load);
        if rest.Ok? {
          assert SigDb(q, load) == Ok(esl.value + rest.value);
          assert db + (esl.value + rest.value) == db + esl.value + rest.value;
        }
      }
    }
  }

  /** `certs_to_sig_db`: accumulate one signature list per certificate; a lone path is a one-element list. */
  method CertsToSigDb(certs: CertPaths, load: string -> Result<Bytes>) returns (r: Result<Bytes>)
    ensures r == SigDb(PathList(certs), load)
  {
    var paths := if certs.Lone? then [certs.path] else certs.paths;
    var db: Bytes := [];
    var i := 0;
    assert paths[i..] == paths;
    assert SigDb(paths, load).Ok? ==> db + SigDb(paths, load).value == SigDb(paths, load).value;
    while i < |paths|
      invariant 0 <= i <= |paths|
      invariant SigDb(paths, load) == Prepend(db, SigDb(paths[i..], load))
    {
      SigDbStep(paths, i, load, db);
      var der := load(paths[i]);
      if der.Err? {
        return Err(der.msg);
      }
      var esl := CertToEfiSigList(der.value);
      if esl.Err? {
        return Err(esl.msg);
      }
      db := db + esl.value;
      i := i + 1;
    }
    assert paths[i..] == [] && db + [] == db;
    return Ok(db);
  }

  // ---------------------------------------------------------------- EFI_TIME

  /** A `datetime` down to the second; its fields are in the ranges `datetime` guarantees. */
  datatype DateTime = DateTime(year: int, month: int, day: int, hour: int, minute: int, second: int)

  type Time = t: DateTime | 1 <= t.year <= 9999 && 1 <= t.month <= 12 && 1 <= t.day <= 31
                            && 0 <= t.hour < 24 && 0 <= t.minute < 60 && 0 <= t.second < 60
    witness DateTime(1, 1, 1, 0, 0, 0)

  /** The arguments `sign_efi_sig_db` packs as EFI_TIME: the date and time, then five zeros. */
  function TimeArgs(t: Time): seq<Value>
  {
    [Int(t.year)] + [Int(t.month)] + [Int(t.day)] + [Int(t.hour)] + [Int(t.minute)] + [Int(t.second)]
    + [Int(0)] + [Int(0)] + [Int(0)] + [Int(0)] + [Int(0)]
  }

  /** The EFI_TIME of `sign_efi_sig_db`: year (2 bytes), month, day, hour, minute, second, then nine zero bytes. */
  lemma {:induction false} EfiTimeBytes(t: Time)
    ensures EfiPack(EfiTimeKinds, TimeArgs(t))
            == Ok(LE(t.year, 2) + LE(t.month, 1) + LE(t.day, 1) + LE(t.hour, 1) + LE(t.minute, 1) + LE(t.second, 1)
                  + LE(0, 1) + LE(0, 4) + LE(0, 2) + LE(0, 1) + LE(0, 1))
  {
    var f: seq<Kind>, a: seq<Value> := [U16], [Int(t.year)];
    EfiPackOne(U16, Int(t.year));
    AppendNil(f);
    AppendNil(a);
    EfiPackSnoc(f, a, U8, Int(t.month));
    EfiPackSnoc(f + [U8], a + [Int(t.month)], U8, Int(t.day));
    EfiPackSnoc(f + [U8] + [U8], a + [Int(t.month)] + [Int(t.day)], U8, Int(t.hour));
    EfiPackSnoc(f + [U8] + [U8] + [U8], a + [Int(t.month)] + [Int(t.day)] + [Int(t.hour)], U8, Int(t.minute));
    var f5, a5 := f + [U8] + [U8] + [U8] + [U8], a + [Int(t.month)] + [Int(t.day)] + [Int(t.hour)] + [Int(t.minute)];
    EfiPackSnoc(f5, a5, U8, Int(t.second));
    EfiPackSnoc(f5 + [U8], a5 + [Int(t.second)], U8, Int(0));
    EfiPackSnoc(f5 + [U8] + [U8], a5 + [Int(t.second)] + [Int(0)], U32, Int(0));
    EfiPackSnoc(f5 + [U8] + [U8] + [U32], a5 + [Int(t.second)] + [Int(0)] + [Int(0)], U16, Int(0));
    EfiPackSnoc(f5 + [U8] + [U8] + [U32] + [U16], a5 + [Int(t.second)] + [Int(0)] + [Int(0)] + [Int(0)], U8, Int(0));
    EfiPackSnoc(f5 + [U8] + [U8] + [U32] + [U16] + [U8], a5 + [Int(t.second)] + [Int(0)] + [Int(0)] + [Int(0)] + [Int(0)],
                U8, Int(0));
  }

  /** The 16-byte EFI_TIME `sign_efi_sig_db` builds from `time`. */
  function EfiTimestamp(t: Time): (r: Bytes)
    ensures |r| == 16
  {
    EfiTimeBytes(t);
    EfiPack(EfiTimeKinds, TimeArgs(t)).value
  }

  lemma TimeLayout(ts: Bytes, y: Bytes, m: Byte, d: Byte, h: Byte, mi: Byte, sec: Byte)
    requires |y| == 2 && ts == y + [m] + [d] + [h] + [mi] + [sec] + [0] + [0, 0, 0, 0] + [0, 0] + [0] + [0]
    ensures ts[..2] == y && ts[2] == m && ts[3] == d && ts[4] == h && ts[5] == mi && ts[6] == sec
    ensures forall i :: 7 <= i < 16 ==> ts[i] == 0
  {
  }

  /** The date and time read back from an EFI_TIME, and its zero fields. */
  lemma EfiTimestampFields(t: Time)
    ensures var ts := EfiTimestamp(t);
            FromLE(ts[..2]) == t.year && ts[2] == t.month && ts[3] == t.day && ts[4] == t.hour
            && ts[5] == t.minute && ts[6] == t.second && forall i :: 7 <= i < 16 ==> ts[i] == 0
  {
    EfiTimeBytes(t);
    assert LE(0, 4) == [0, 0, 0, 0] && LE(0, 2) == [0, 0] && LE(0, 1) == [0];
    assert LE(t.month, 1) == [t.month] && LE(t.day, 1) == [t.day] && LE(t.hour, 1) == [t.hour];
    assert LE(t.minute, 1) == [t.minute] && LE(t.second, 1) == [t.second];
    TimeLayout(EfiTimestamp(t), LE(t.year, 2), t.month, t.day, t.hour, t.minute, t.second);
    LERoundTrip(t.year, 2);
  }
}
