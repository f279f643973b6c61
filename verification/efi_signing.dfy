/**
  lib/efi.py, second half: signing a signature database.  The signed variable
  is an EFI_VARIABLE_AUTHENTICATION_2 header (EFI_TIME, then a
  WIN_CERTIFICATE_UEFI_GUID naming PKCS#7), the PKCS#7 blob, then the database
  (section 8.2.6 of the UEFI Specification).  The blob signs the variable name
  in UTF-16LE, the vendor GUID, the attributes, the timestamp and the database.
  Signing is the parameter `sign`: the key and certificate it uses are fixed.
*/
module EfiSigning {
  import opened Wrappers
  import opened EfiBytes
  import opened Efi

  // ---------------------------------------------------------------- authentication header

  lemma Display3<T>(a: T, b: T, c: T)
    ensures [a, b, c] == [a] + [b] + [c]
  {
  }

  /** `efi_pack(WIN_CERTIFICATE, length, 0x200, WIN_CERT_TYPE_EFI_GUID)` for a length that fits in 32 bits. */
  lemma WinCertBytes(length: nat)
    requires length < Pow256(4)
    ensures EfiPack(WinCertificateKinds, [Int(length), Int(WinCertRevision), Int(WinCertTypeEfiGuid)])
            == Ok(LE(length, 4) + LE(WinCertRevision, 2) + LE(WinCertTypeEfiGuid, 2))
  {
    Display3(Int(length), Int(WinCertRevision), Int(WinCertTypeEfiGuid));
    EfiPackOne(U32, Int(length));
    EfiPackSnoc([U32], [Int(length)], U16, Int(WinCertRevision));
    EfiPackSnoc([U32] + [U16], [Int(length)] + [Int(WinCertRevision)], U16, Int(WinCertTypeEfiGuid));
  }

  /**
    `create_auth2_header(p7, timestamp)`: the timestamp, then a WIN_CERTIFICATE
    whose dwLength covers the WIN_CERTIFICATE_UEFI_GUID header and the PKCS#7
    blob, then the PKCS#7 GUID.  struct.error when that length needs more than
    32 bits.
  */
  function CreateAuth2Header(p7: Bytes, timestamp: Bytes): Result<Bytes>
  {
    var length := |p7| + WinCertificateUefiGuidOffset;
    var winCert :- EfiPack(WinCertificateKinds, [Int(length), Int(WinCertRevision), Int(WinCertTypeEfiGuid)]);
    Ok(timestamp + winCert + AsBytes(Pkcs7Guid))
  }

  /** The header exists iff dwLength fits in 32 bits, and then it is timestamp, dwLength, 0x200, 0x0EF1, PKCS#7 GUID. */
  lemma {:induction false} CreateAuth2HeaderBytes(p7: Bytes, timestamp: Bytes)
    ensures CreateAuth2Header(p7, timestamp).Ok? <==> |p7| + WinCertificateUefiGuidOffset < Pow256(4)
    ensures CreateAuth2Header(p7, timestamp).Ok? ==>
              CreateAuth2Header(p7, timestamp).value
              == timestamp + LE(|p7| + WinCertificateUefiGuidOffset, 4) + LE(WinCertRevision, 2)
                 + LE(WinCertTypeEfiGuid, 2) + AsBytes(Pkcs7Guid)
  {
    var length := |p7| + WinCertificateUefiGuidOffset;
    if length < Pow256(4) {
      WinCertBytes(length);
    } else {
      var args := [Int(length), Int(WinCertRevision), Int(WinCertTypeEfiGuid)];
      EfiPackSucceeds(WinCertificateKinds, args);
      assert WinCertificateKinds[0] == U32 && args[0] == Int(length) && !Fits(U32, Int(length));
    }
  }

  // ---------------------------------------------------------------- signed payload

  /** `EFI_AT_ATTRS_BYTES`: the attributes as a 32-bit field. */
  function AttributesBytes(): (r: Bytes)
    ensures r == LE(EfiAtAttrs, 4)
  {
    EfiPackOne(U32, Int(EfiAtAttrs));
    EfiPack([U32], [Int(EfiAtAttrs)]).value
  }

  /** What the PKCS#7 blob signs: name (UTF-16LE), vendor GUID, attributes, timestamp, database. */
  function SignedPayload(variable: string, guid: Uuid, timestamp: Bytes, sigDb: Bytes): Bytes
  {
    Utf16Le(variable) + AsBytes(guid) + AttributesBytes() + timestamp + sigDb
  }

  /** The vendor GUID `sign_efi_sig_db` uses: the one given, else the variable's own; KeyError for an unknown variable. */
  function VendorGuid(variable: string, guid: Option<Uuid>): (r: Result<Uuid>)
    ensures guid.Some? ==> r == Ok(guid.value)
    ensures guid.None? ==> r == GetSecureBootGuid(variable)
  {
    if guid.Some? then Ok(guid.value) else GetSecureBootGuid(variable)
  }

  /**
    `sign_efi_sig_db(sig_db, var, key, cert, time, guid)`: the authentication
    header, the PKCS#7 blob and the database.  `sign` is `sign(payload, key, cert)`.
  */
  function SignEfiSigDb(sigDb: Bytes, variable: string, sign: Bytes -> Bytes, time: Time, guid: Option<Uuid>): Result<Bytes>
  {
    var g :- VendorGuid(variable, guid);
    var timestamp := EfiTimestamp(time);
    var p7 := sign(SignedPayload(variable, g, timestamp, sigDb));
    var header :- CreateAuth2Header(p7, timestamp);
    Ok(header + p7 + sigDb)
  }

  /**
    Signing fails exactly for an unknown variable without a GUID and for a PKCS#7
    blob too long for dwLength; otherwise the output is the header, the blob
    signing name, GUID, attributes, timestamp and database, and the database.
  */
  lemma {:induction false} SignEfiSigDbBytes(sigDb: Bytes, variable: string, sign: Bytes -> Bytes, time: Time, guid: Option<Uuid>)
    ensures VendorGuid(variable, guid).Err? ==> SignEfiSigDb(sigDb, variable, sign, time, guid).Err?
    ensures VendorGuid(variable, guid).Ok? ==>
              var g := VendorGuid(variable, guid).value;
              var ts := EfiTimestamp(time);
              var p7 := sign(Utf16Le(variable) + AsBytes(g) + LE(EfiAtAttrs, 4) + ts + sigDb);
              var out := SignEfiSigDb(sigDb, variable, sign, time, guid);
              (out.Ok? <==> |p7| + WinCertificateUefiGuidOffset < Pow256(4))
              && (out.Ok? ==>
                    out.value == ts + LE(|p7| + WinCertificateUefiGuidOffset, 4) + LE(WinCertRevision, 2)
                                 + LE(WinCertTypeEfiGuid, 2) + AsBytes(Pkcs7Guid) + p7 + sigDb)
  {
    var vg := VendorGuid(variable, guid);
    if vg.Ok? {
      var ts := EfiTimestamp(time);
      var p7 := sign(SignedPayload(variable, vg.value, ts, sigDb));
      CreateAuth2HeaderBytes(p7, ts);
    }
  }

  // ---------------------------------------------------------------- reading an authenticated variable

  /** The parts of an EFI_VARIABLE_AUTHENTICATION_2 followed by the variable's data. */
  datatype Auth2 = Auth2(timestamp: Bytes, revision: nat, certificateType: nat, certTypeGuid: Bytes, certData: Bytes, data: Bytes)

  /**
    How firmware reads an authenticated write (section 8.2.6 of the UEFI
    Specification): 16 bytes of EFI_TIME, a WIN_CERTIFICATE whose dwLength spans
    its own header, the certificate type GUID and the certificate data, then
    the variable data.
  */
  function ParseAuth2(blob: Bytes): (r: Option<Auth2>)
    ensures r.Some? ==> |r.value.timestamp| == 16 && |r.value.certTypeGuid| == 16
                        && blob == r.value.timestamp + LE(WinCertificateUefiGuidOffset + |r.value.certData|, 4)
                                   + LE(r.value.revision, 2) + LE(r.value.certificateType, 2)
                                   + r.value.certTypeGuid + r.value.certData + r.value.data
  {
    if |blob| < 40 then None
    else
      var length := FromLE(blob[16..20]);
      if length < WinCertificateUefiGuidOffset || 16 + length > |blob| then None
      else
        ParseAuth2Split(blob, length);
        Some(Auth2(blob[..16], FromLE(blob[20..22]), FromLE(blob[22..24]), blob[24..40], blob[40..16 + length], blob[16 + length..]))
  }

  lemma ParseAuth2Split(blob: Bytes, length: nat)
    requires 40 <= |blob| && length == FromLE(blob[16..20]) && WinCertificateUefiGuidOffset <= length && 16 + length <= |blob|
    ensures blob == blob[..16] + LE(length, 4) + LE(FromLE(blob[20..22]), 2) + LE(FromLE(blob[22..24]), 2)
                    + blob[24..40] + blob[40..16 + length] + blob[16 + length..]
  {
    FromLERoundTrip(blob[16..20]);
    FromLERoundTrip(blob[20..22]);
    FromLERoundTrip(blob[22..24]);
    assert blob == blob[..16] + blob[16..20] + blob[20..22] + blob[22..24] + blob[24..40] + blob[40..16 + length] + blob[16 + length..];
  }

  /**
    A signed database reads back as the timestamp, revision 0x200, certificate
    type EFI_GUID, the PKCS#7 GUID, the PKCS#7 blob over the payload, and the database.
  */
  lemma {:induction false} SignEfiSigDbParses(sigDb: Bytes, variable: string, sign: Bytes -> Bytes, time: Time, guid: Option<Uuid>)
    requires SignEfiSigDb(sigDb, variable, sign, time, guid).Ok?
    ensures VendorGuid(variable, guid).Ok?
    ensures var ts := EfiTimestamp(time);
            var p7 := sign(Utf16Le(variable) + AsBytes(VendorGuid(variable, guid).value) + LE(EfiAtAttrs, 4) + ts + sigDb);
            ParseAuth2(SignEfiSigDb(sigDb, variable, sign, time, guid).value)
            == Some(Auth2(ts, WinCertRevision, WinCertTypeEfiGuid, AsBytes(Pkcs7Guid), p7, sigDb))
  {
    SignEfiSigDbBytes(sigDb, variable, sign, time, guid);
    var ts := EfiTimestamp(time);
    var p7 := sign(Utf16Le(variable) + AsBytes(VendorGuid(variable, guid).value) + LE(EfiAtAttrs, 4) + ts + sigDb);
    var length := |p7| + WinCertificateUefiGuidOffset;
    var blob := SignEfiSigDb(sigDb, variable, sign, time, guid).value;
    AuthSlices(ts, LE(length, 4), LE(WinCertRevision, 2), LE(WinCertTypeEfiGuid, 2), AsBytes(Pkcs7Guid), p7, sigDb);
    LERoundTrip(length, 4);
    LERoundTrip(WinCertRevision, 2);
    LERoundTrip(WinCertTypeEfiGuid, 2);
  }

  lemma AuthSlices(ts: Bytes, l: Bytes, rev: Bytes, ty: Bytes, pk: Bytes, p7: Bytes, db: Bytes)
    requires |ts| == 16 && |l| == 4 && |rev| == 2 && |ty| == 2 && |pk| == 16
    ensures var b := ts + l + rev + ty + pk + p7 + db;
            b[..16] == ts && b[16..20] == l && b[20..22] == rev && b[22..24] == ty && b[24..40] == pk
            && b[40..40 + |p7|] == p7 && b[40 + |p7|..] == db
  {
  }

  // ---------------------------------------------------------------- recovering the signature list

  /** `pat` occurs in `s` at position `i`. */
  predicate OccursAt(s: Bytes, pat: Bytes, i: nat)
  {
    i + |pat| <= |s| && s[i..i + |pat|] == pat
  }

  /** `s.index(pat, start)`: the first position at or after `start` where `pat` occurs; ValueError when there is none. */
  function IndexFrom(s: Bytes, pat: Bytes, start: nat): (r: Option<nat>)
    decreases |s| - start
    ensures r.Some? ==> start <= r.value && OccursAt(s, pat, r.value)
                        && forall j :: start <= j < r.value ==> !OccursAt(s, pat, j)
    ensures r.None? ==> forall j :: start <= j ==> !OccursAt(s, pat, j)
  {
    if start + |pat| > |s| then None
    else if s[start..start + |pat|] == pat then Some(start)
    else IndexFrom(s, pat, start + 1)
  }

  /** `esl_from_auth_bytes`: the suffix of the data from the first EFI_CERT_X509_GUID on. */
  function EslFromAuthBytes(authData: Bytes): (r: Result<Bytes>)
    ensures r.Err? <==> forall j: nat :: !OccursAt(authData, X509GuidBytes(), j)
    ensures r.Ok? ==> |r.value| <= |authData| && r.value == authData[|authData| - |r.value|..]
                      && OccursAt(authData, X509GuidBytes(), |authData| - |r.value|)
                      && forall j: nat :: j < |authData| - |r.value| ==> !OccursAt(authData, X509GuidBytes(), j)
  {
    match IndexFrom(authData, X509GuidBytes(), 0)
    case None => Err("ValueError: subsection not found")
    case Some(i) => Ok(authData[i..])
  }

  lemma AsBytesAt(g: Guid)
    requires |g.data4| == 8
    ensures forall i :: 0 <= i < 4 ==> AsBytes(g)[i] == LE(g.data1, 4)[i]
    ensures forall i :: 4 <= i < 6 ==> AsBytes(g)[i] == LE(g.data2, 2)[i - 4]
    ensures forall i :: 6 <= i < 8 ==> AsBytes(g)[i] == LE(g.data3, 2)[i - 6]
    ensures forall i :: 8 <= i < 16 ==> AsBytes(g)[i] == g.data4[i - 8]
  {
  }

  /** The bytes of EFI_CERT_X509_GUID: none is zero, and the first is 0xA1. */
  lemma X509GuidByteValues()
    ensures X509GuidBytes()[0] == 0xA1
    ensures forall i :: 0 <= i < 16 ==> X509GuidBytes()[i] != 0
  {
    AsBytesAt(X509Guid);
    assert LE(0xA5C059A1, 4) == [0xA1, 0x59, 0xC0, 0xA5];
    assert LE(0x94E4, 2) == [0xE4, 0x94];
    assert LE(0x4AA7, 2) == [0xA7, 0x4A];
  }

  /** The authentication-header bytes after dwLength (revision, certificate type, PKCS#7 GUID): a zero, then no 0xA1. */
  lemma AuthInfoTail()
    ensures var t := LE(WinCertRevision, 2) + LE(WinCertTypeEfiGuid, 2) + AsBytes(Pkcs7Guid);
            |t| == 20 && t[0] == 0 && forall k :: 1 <= k < 20 ==> t[k] != 0xA1
  {
    AsBytesAt(Pkcs7Guid);
    assert LE(0x4AAFD29D, 4) == [0x9D, 0xD2, 0xAF, 0x4A];
    assert LE(0x68DF, 2) == [0xDF, 0x68];
    assert LE(0x49EE, 2) == [0xEE, 0x49];
    assert LE(WinCertRevision, 2) == [0x00, 0x02];
    assert LE(WinCertTypeEfiGuid, 2) == [0xF1, 0x0E];
  }

  /** The 40-byte authentication header: the timestamp ends in a zero, so does the revision's first byte, and no later byte is 0xA1. */
  lemma HeaderBytes(t: Time, l: Bytes)
    requires |l| == 4
    ensures var hdr := EfiTimestamp(t) + l + LE(WinCertRevision, 2) + LE(WinCertTypeEfiGuid, 2) + AsBytes(Pkcs7Guid);
            |hdr| == 40 && hdr[15] == 0 && hdr[20] == 0 && forall k :: 21 <= k < 40 ==> hdr[k] != 0xA1
  {
    var tail := LE(WinCertRevision, 2) + LE(WinCertTypeEfiGuid, 2) + AsBytes(Pkcs7Guid);
    AuthInfoTail();
    EfiTimestampFields(t);
    var ts := EfiTimestamp(t);
    var hdr := ts + l + LE(WinCertRevision, 2) + LE(WinCertTypeEfiGuid, 2) + AsBytes(Pkcs7Guid);
    assert hdr == ts + l + tail;
    assert hdr[15] == ts[15];
  }

  /** No 16-byte pattern without zero bytes, starting with a byte absent from header bytes 21..39, starts inside such a header. */
  lemma NoPatternInHeader(hdr: Bytes, rest: Bytes, x: Bytes, j: nat)
    requires |hdr| == 40 && hdr[15] == 0 && hdr[20] == 0 && |x| == 16 && forall k :: 21 <= k < 40 ==> hdr[k] != x[0]
    requires forall i :: 0 <= i < 16 ==> x[i] != 0
    requires j < 40
    ensures !OccursAt(hdr + rest, x, j)
  {
    var b := hdr + rest;
    if j + 16 <= |b| {
      var m := if j <= 15 then 15 else if j <= 20 then 20 else j;
      assert b[j..j + 16][m - j] == b[m] && b[m] != x[m - j];
    }
  }

  /** An occurrence after a prefix is an occurrence in what follows the prefix. */
  lemma OccursShift(h: Bytes, c: Bytes, x: Bytes, k: nat)
    ensures OccursAt(h + c, x, |h| + k) <==> OccursAt(c, x, k)
  {
    if k + |x| <= |c| {
      assert (h + c)[|h| + k..|h| + k + |x|] == c[k..k + |x|];
    }
  }

  /** An occurrence that ends within the first `n` bytes is an occurrence in those bytes. */
  lemma OccursPrefix(s: Bytes, n: nat, x: Bytes, k: nat)
    requires k + |x| <= n <= |s|
    ensures OccursAt(s, x, k) <==> OccursAt(s[..n], x, k)
  {
    assert s[..n][k..k + |x|] == s[k..k + |x|];
  }

  /** The first occurrence found by `index` is the one with none before it. */
  lemma IndexFromFirst(s: Bytes, pat: Bytes, at: nat)
    requires OccursAt(s, pat, at) && forall j: nat :: j < at ==> !OccursAt(s, pat, j)
    ensures IndexFrom(s, pat, 0) == Some(at)
  {
  }

  /** db begins where header and p7 end, so it places `x` there. */
  lemma OccursAtDb(hdr: Bytes, p7: Bytes, db: Bytes, x: Bytes)
    requires |x| == 16 && |db| >= 16 && db[..16] == x
    ensures OccursAt(hdr + (p7 + db), x, |hdr| + |p7|)
  {
    SliceOfConcat(p7, db, 0, 16);
    assert db[0..16] == db[..16];
    assert OccursAt(p7 + db, x, |p7|);
    OccursShift(hdr, p7 + db, x, |p7|);
  }

  /** An occurrence starting inside p7 would be an occurrence in p7 ‖ db[..15]. */
  lemma NoneInP7(hdr: Bytes, p7: Bytes, db: Bytes, x: Bytes, k: nat)
    requires |x| == 16 && |db| >= 16 && k < |p7|
    requires !OccursAt(p7 + db[..15], x, k)
    ensures !OccursAt(hdr + (p7 + db), x, |hdr| + k)
  {
    var c := p7 + db;
    OccursShift(hdr, c, x, k);
    OccursPrefix(c, |p7| + 15, x, k);
    TakeOfConcat(p7, db, 15);
  }

  /** The first occurrence of `x` in header ‖ (p7 ‖ db) is the start of db, when the header and p7 hold none. */
  lemma FirstOccurrence(hdr: Bytes, p7: Bytes, db: Bytes, x: Bytes)
    requires |hdr| == 40 && |x| == 16 && |db| >= 16 && db[..16] == x
    requires forall j: nat :: j < 40 ==> !OccursAt(hdr + (p7 + db), x, j)
    requires forall j: nat :: j < |p7| ==> !OccursAt(p7 + db[..15], x, j)
    ensures IndexFrom(hdr + (p7 + db), x, 0) == Some(40 + |p7|)
  {
    OccursAtDb(hdr, p7, db, x);
    NoneBeforeDb(hdr, p7, db, x);
    IndexFromFirst(hdr + (p7 + db), x, 40 + |p7|);
  }

  lemma NoneBeforeDb(hdr: Bytes, p7: Bytes, db: Bytes, x: Bytes)
    requires |hdr| == 40 && |x| == 16 && |db| >= 16
    requires forall j: nat :: j < 40 ==> !OccursAt(hdr + (p7 + db), x, j)
    requires forall j: nat :: j < |p7| ==> !OccursAt(p7 + db[..15], x, j)
    ensures forall j: nat :: j < 40 + |p7| ==> !OccursAt(hdr + (p7 + db), x, j)
  {
    forall j: nat | 40 <= j < 40 + |p7|
      ensures !OccursAt(hdr + (p7 + db), x, j)
    {
      NoneInP7(hdr, p7, db, x, j - 40);
    }
  }

  /** What `esl_from_auth_bytes` needs of a header to find the database behind it. */
  lemma RecoverDb(hdr: Bytes, p7: Bytes, db: Bytes, x: Bytes)
    requires |hdr| == 40 && hdr[15] == 0 && hdr[20] == 0 && |x| == 16 && forall k :: 21 <= k < 40 ==> hdr[k] != x[0]
    requires forall i :: 0 <= i < 16 ==> x[i] != 0
    requires |db| >= 16 && db[..16] == x
    requires forall j: nat :: j < |p7| ==> !OccursAt(p7 + db[..15], x, j)
    ensures IndexFrom(hdr + p7 + db, x, 0) == Some(40 + |p7|) && (hdr + p7 + db)[40 + |p7|..] == db
  {
    forall j: nat | j < 40
      ensures !OccursAt(hdr + (p7 + db), x, j)
    {
      NoPatternInHeader(hdr, p7 + db, x, j);
    }
    FirstOccurrence(hdr, p7, db, x);
    assert hdr + p7 + db == hdr + (p7 + db);
  }

  /**
    `esl_from_auth_bytes` gives back the database that `sign_efi_sig_db` signed,
    when the database starts with EFI_CERT_X509_GUID (as every signature list
    of `cert_to_efi_sig_list` does) and the PKCS#7 blob does not contain that
    GUID, even overlapping into the database.
  */
  lemma {:induction false} EslFromSignedSigDb(sigDb: Bytes, variable: string, sign: Bytes -> Bytes, time: Time, guid: Option<Uuid>)
    requires SignEfiSigDb(sigDb, variable, sign, time, guid).Ok?
    requires |sigDb| >= 16 && sigDb[..16] == X509GuidBytes()
    requires VendorGuid(variable, guid).Ok?
    requires var p7 := sign(Utf16Le(variable) + AsBytes(VendorGuid(variable, guid).value) + LE(EfiAtAttrs, 4) + EfiTimestamp(time) + sigDb);
             forall j: nat :: j < |p7| ==> !OccursAt(p7 + sigDb[..15], X509GuidBytes(), j)
    ensures EslFromAuthBytes(SignEfiSigDb(sigDb, variable, sign, time, guid).value) == Ok(sigDb)
  {
    SignEfiSigDbBytes(sigDb, variable, sign, time, guid);
    var p7 := sign(Utf16Le(variable) + AsBytes(VendorGuid(variable, guid).value) + LE(EfiAtAttrs, 4) + EfiTimestamp(time) + sigDb);
    var l := LE(|p7| + WinCertificateUefiGuidOffset, 4);
    var hdr := EfiTimestamp(time) + l + LE(WinCertRevision, 2) + LE(WinCertTypeEfiGuid, 2) + AsBytes(Pkcs7Guid);
    var b := SignEfiSigDb(sigDb, variable, sign, time, guid).value;
    assert b == hdr + p7 + sigDb;
    HeaderBytes(time, l);
    X509GuidByteValues();
    RecoverDb(hdr, p7, sigDb, X509GuidBytes());
  }

  /**
    For a database built by `certs_to_sig_db`, what `esl_from_auth_bytes` reads
    out of the signed variable holds the loaded certificates, in order.
  */
  lemma {:induction false} SignedSigDbRecovers(paths: seq<string>, load: string -> Result<Bytes>, variable: string,
                                               sign: Bytes -> Bytes, time: Time, guid: Option<Uuid>)
    requires SigDb(paths, load).Ok? && paths != []
    requires SignEfiSigDb(SigDb(paths, load).value, variable, sign, time, guid).Ok?
    requires VendorGuid(variable, guid).Ok?
    requires var db := SigDb(paths, load).value;
             var p7 := sign(Utf16Le(variable) + AsBytes(VendorGuid(variable, guid).value) + LE(EfiAtAttrs, 4) + EfiTimestamp(time) + db);
             forall j: nat :: j < |p7| ==> !OccursAt(p7 + db[..15], X509GuidBytes(), j)
    ensures var esl := EslFromAuthBytes(SignEfiSigDb(SigDb(paths, load).value, variable, sign, time, guid).value);
            esl.Ok? && ParseSigDb(esl.value).Some?
            && var ders := ParseSigDb(esl.value).value;
               |ders| == |paths| && forall i :: 0 <= i < |paths| ==> load(paths[i]) == Ok(ders[i])
  {
    SigDbStartsWithX509(paths, load);
    EslFromSignedSigDb(SigDb(paths, load).value, variable, sign, time, guid);
    SigDbRoundTrip(paths, load);
  }

  // ---------------------------------------------------------------- signed image names

  /** The last position of `c` in `s` (`str.rfind`). */
  function LastIndexOf(s: string, c: char): (r: Option<nat>)
    ensures r.None? ==> c !in s
    ensures r.Some? ==> r.value < |s| && s[r.value] == c && c !in s[r.value + 1..]
  {
    if s == [] then None
    else if s[|s| - 1] == c then Some(|s| - 1)
    else
      var r := LastIndexOf(s[..|s| - 1], c);
      assert r.Some? ==> s[r.value + 1..] == s[..|s| - 1][r.value + 1..] + [s[|s| - 1]];
      r
  }

  /** `rfind` as Python returns it: -1 when absent. */
  function RFind(s: string, c: char): int
  {
    match LastIndexOf(s, c)
    case None => -1
    case Some(i) => i
  }

  /**
    `os.path.splitext` on a POSIX path: the extension starts at the last '.'
    of the last path component, unless everything before it in that component
    is dots.
  */
  function SplitExt(p: string): (string, string)
  {
    var sep := RFind(p, '/');
    var dot := RFind(p, '.');
    if dot > sep && exists k :: sep + 1 <= k < dot && p[k] != '.' then (p[..dot], p[dot..])
    else (p, "")
  }

  /** The root and the extension put back together give the path; a non-empty extension is '.' and no further '.' or '/'. */
  lemma SplitExtJoin(p: string)
    ensures SplitExt(p).0 + SplitExt(p).1 == p
    ensures SplitExt(p).1 != [] ==> SplitExt(p).1[0] == '.' && '.' !in SplitExt(p).1[1..] && '/' !in SplitExt(p).1
  {
    var sep := RFind(p, '/');
    var dot := RFind(p, '.');
    if dot > sep && exists k :: sep + 1 <= k < dot && p[k] != '.' {
      assert p[..dot] + p[dot..] == p;
      assert p[dot..][1..] == p[dot + 1..];
      forall q | 0 <= q < |p[dot..]|
        ensures p[dot..][q] != '/'
      {
        match LastIndexOf(p, '/')
        case None =>
          assert p[dot + q] in p;
        case Some(i) =>
          assert p[dot + q] == p[i + 1..][dot + q - i - 1];
      }
    }
  }

  /** `get_signed_name`: "-signed" goes between the root and the extension. */
  function GetSignedName(image: string): string
  {
    SplitExt(image).0 + "-signed" + SplitExt(image).1
  }

  /** Characters that `t` lacks do not move when `t` is appended. */
  lemma {:induction false} LastIndexAppend(s: string, t: string, c: char)
    requires c !in t
    ensures LastIndexOf(s + t, c) == LastIndexOf(s, c)
    decreases |t|
  {
    if t != [] {
      var u := s + t;
      assert u[|u| - 1] == t[|t| - 1];
      assert u[..|u| - 1] == s + t[..|t| - 1];
      LastIndexAppend(s, t[..|t| - 1], c);
    } else {
      assert s + t == s;
    }
  }

  /** With an extension, the signed name's last '.' opens the same extension. */
  lemma SignedNameLastDot(m: string, ext: string)
    requires ext != [] && ext[0] == '.' && '.' !in ext[1..]
    ensures RFind(m + ext, '.') == |m|
  {
    assert m + ext == (m + ['.']) + ext[1..];
    LastIndexAppend(m + ['.'], ext[1..], '.');
  }

  /** Appending text without '/' leaves the last '/' where it was. */
  lemma RFindAppend(s: string, t: string, c: char)
    requires c !in t
    ensures RFind(s + t, c) == RFind(s, c)
  {
    LastIndexAppend(s, t, c);
  }

  /** A name with an extension: the signed name splits into the root with "-signed", and the same extension. */
  lemma {:induction false} SignedNameWithExtension(image: string)
    requires SplitExt(image).1 != []
    ensures SplitExt(GetSignedName(image)) == (SplitExt(image).0 + "-signed", SplitExt(image).1)
  {
    var (root, ext) := SplitExt(image);
    SplitExtJoin(image);
    var m := root + "-signed";
    var q := GetSignedName(image);
    assert q == m + ext;
    SignedNameLastDot(m, ext);
    assert '/' !in "-signed" + ext;
    assert q == root + ("-signed" + ext);
    RFindAppend(root, "-signed" + ext, '/');
    RFindAppend(root, ext, '/');
    assert RFind(q, '/') == RFind(image, '/') < |root|;
    assert q[|m| - 1] == 'd';
    assert q[..|m|] == m && q[|m|..] == ext;
  }

  /** A name without an extension just gains "-signed", and still has none. */
  lemma {:induction false} SignedNameWithoutExtension(image: string)
    requires SplitExt(image).1 == []
    ensures SplitExt(GetSignedName(image)) == (image + "-signed", [])
  {
    SplitExtJoin(image);
    var q := GetSignedName(image);
    assert q == image + "-signed";
    RFindAppend(image, "-signed", '.');
    RFindAppend(image, "-signed", '/');
    var sep := RFind(image, '/');
    var dot := RFind(image, '.');
    if dot > sep {
      forall k | sep + 1 <= k < dot
        ensures q[k] == image[k]
      {
      }
    }
  }

  /** A signed image keeps the extension of the original, and its root is the original root with "-signed". */
  lemma SignedNameKeepsExtension(image: string)
    ensures SplitExt(GetSignedName(image)).1 == SplitExt(image).1
    ensures SplitExt(GetSignedName(image)).0 == SplitExt(image).0 + "-signed"
  {
    SplitExtJoin(image);
    if SplitExt(image).1 != [] {
      SignedNameWithExtension(image);
    } else {
      SignedNameWithoutExtension(image);
    }
  }
}
