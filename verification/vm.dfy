/**
  lib/vm.py: the VM handle.  The class `Vm` keeps what the handle remembers
  between calls (its host, the host it left by migration, its IP address) and
  drives the management plane for shutdown, destruction, cloning, migration and
  the image cache.  The pure parts are the cache key of a VM definition, the
  tools version, the message listing parser and the readers of EFI data.

  The reads lib/basevm.py provides (`name()`, `vdi_uuids()`, `get_sr()`,
  `vifs()`) are queries on the world: the VM record's name, its disks in order,
  the SR of its first disk and its VIFs.
*/
module VmHandle {
  import opened Wrappers
  import Text
  import LegacyCommon
  import opened ManagementPlane
  import opened HostHandle
  import opened EfiBytes

  // ---------------------------------------------------------------- VM definitions

  /** An entry of a definition's "vdis": a VDI to create and the VBD that plugs it. */
  datatype VdiDef = VdiDef(name: string, size: string, device: string, userdevice: string)

  /** A definition's "cd_vbd": an empty CD drive. */
  datatype CdVbdDef = CdVbdDef(device: string, userdevice: string)

  /** An entry of a definition's "vifs": a VIF on the network given by UUID or by name. */
  datatype VifDef = VifDef(index: nat, networkUuid: Option<string>, networkName: Option<string>)

  /** An entry of a definition's "params": `param_set(param_name, value, key)`. */
  datatype ParamDef = ParamDef(paramName: string, value: string, key: Option<string>)

  /**
    A `vm_definitions` dictionary: each key the test author may give, absent or
    present.
  */
  datatype VmDef = VmDef(name: Option<string>, template: Option<string>, imageTest: Option<string>,
                         imageVm: Option<string>, imageScope: Option<string>, vdis: Option<seq<VdiDef>>,
                         cdVbd: Option<CdVbdDef>, vifs: Option<seq<VifDef>>, params: Option<seq<ParamDef>>)

  /** `shortened_nodeid(nodeid)` and `expand_scope_relative_nodeid(nodeid, scope, ref_nodeid)`, as given functions. */
  datatype NodeIds = NodeIds(shortened: string -> string, expandScopeRelative: (string, string, string) -> string)

  /** The cache id `create_vms` saves a VM under: "<nodeid>-<name>-<git revision>". */
  function CacheId(nodeid: string, name: string, gitref: string): string
  {
    nodeid + "-" + name + "-" + gitref
  }

  /**
    `vm_cache_key_from_def(vm_def, ref_nodeid, test_gitref)`: the cache id of
    the image a definition asks for.  "name" and "image_test" are required;
    "image_vm" defaults to the name and "image_scope" to "module"; `equivs`
    (IMAGE_EQUIVS) replaces a key it holds.
  */
  function VmCacheKeyFromDef(def: VmDef, refNodeid: string, gitref: string, ids: NodeIds,
                             equivs: map<string, string>): Result<string>
  {
    if def.name.None? then Err("KeyError: 'name'")
    else if def.imageTest.None? then Err("KeyError: 'image_test'")
    else
      var imageVm := if def.imageVm.Some? then def.imageVm.value else def.name.value;
      var scope := if def.imageScope.Some? then def.imageScope.value else "module";
      var key := CacheId(ids.shortened(ids.expandScopeRelative(def.imageTest.value, scope, refNodeid)), imageVm, gitref);
      Ok(if key in equivs then equivs[key] else key)
  }

  /**
    The key a definition derives is the id under which the producing test saved
    its VM: when "image_test" (in its scope) names the producing test, "image_vm"
    (or else the name) is the producing definition's name, the revision is the
    same and IMAGE_EQUIVS does not redirect it.  Both keys are missing exactly
    when "name" or "image_test" is.
  */
  lemma CacheKeyFindsSaved(def: VmDef, refNodeid: string, gitref: string, ids: NodeIds, equivs: map<string, string>,
                           producer: string, producerName: string)
    requires def.name.Some? && def.imageTest.Some?
    requires ids.expandScopeRelative(def.imageTest.value, if def.imageScope.Some? then def.imageScope.value else "module",
                                     refNodeid) == producer
    requires (if def.imageVm.Some? then def.imageVm.value else def.name.value) == producerName
    requires CacheId(ids.shortened(producer), producerName, gitref) !in equivs
    ensures VmCacheKeyFromDef(def, refNodeid, gitref, ids, equivs) == Ok(CacheId(ids.shortened(producer), producerName, gitref))
  {
  }

  /** Keys for the same test and revision differ when the VM names differ: each VM of a test has its own image. */
  lemma {:induction false} CacheIdSeparatesVms(nodeid: string, a: string, b: string, gitref: string)
    requires a != b
    ensures CacheId(nodeid, a, gitref) != CacheId(nodeid, b, gitref)
  {
    var ka, kb := CacheId(nodeid, a, gitref), CacheId(nodeid, b, gitref);
    var p := |nodeid| + 1;
    assert ka[p..p + |a|] == a;
    assert kb[p..p + |b|] == b;
  }

  // ---------------------------------------------------------------- tools version

  /**
    `tools_version()` from the dictionary `parse_xe_dict` makes of
    PV-drivers-version: "major.minor.micro-build"; the first key the format
    misses raises KeyError.
  */
  function ToolsVersion(version: map<string, string>): Result<string>
  {
    if "major" !in version then Err("KeyError: 'major'")
    else if "minor" !in version then Err("KeyError: 'minor'")
    else if "micro" !in version then Err("KeyError: 'micro'")
    else if "build" !in version then Err("KeyError: 'build'")
    else Ok(version["major"] + "." + version["minor"] + "." + version["micro"] + "-" + version["build"])
  }

  /**
    The version string gives the four fields back: split on '.' it is major,
    minor and "micro-build", and the last piece split on '-' is micro and build,
    when no field holds a '.' or a '-'.
  */
  lemma {:induction false} ToolsVersionFields(version: map<string, string>)
    requires "major" in version && "minor" in version && "micro" in version && "build" in version
    requires forall k :: k in version ==> '.' !in version[k] && '-' !in version[k]
    ensures ToolsVersion(version).Ok?
    ensures var pieces := Text.Split(ToolsVersion(version).value, '.');
            && pieces == [version["major"], version["minor"], version["micro"] + "-" + version["build"]]
            && Text.Split(pieces[2], '-') == [version["micro"], version["build"]]
  {
    var major, minor, micro, build := version["major"], version["minor"], version["micro"], version["build"];
    var last := micro + "-" + build;
    assert '.' !in last by {
      assert forall i :: 0 <= i < |last| ==> last[i] == (if i < |micro| then micro[i] else if i == |micro| then '-' else build[i - |micro| - 1]);
    }
    Text.SplitJoin([major, minor, last], '.');
    assert Text.Join([major, minor, last], '.') == major + "." + minor + "." + last by {
      assert Text.Join([minor, last], '.') == minor + "." + Text.Join([last], '.');
    }
    assert ToolsVersion(version).value == major + "." + minor + "." + last;
    Text.SplitJoin([micro, build], '-');
    assert Text.Join([micro, build], '-') == last by {
      assert Text.Join([micro, build], '-') == micro + "-" + Text.Join([build], '-');
    }
  }

  // ---------------------------------------------------------------- message listing

  const IndexError := "IndexError: list index out of range"

  /** The UUID of one line of `xe message-list params=uuid` ("uuid ( RO) : <uuid>"): the stripped second ':' field. */
  function MessageUuid(line: string): Result<string>
  {
    var fields := Text.Split(line, ':');
    if |fields| < 2 then Err(IndexError) else Ok(Text.Strip(fields[1], Text.Whitespace))
  }

  /** `get_messages(name)` on the listing's lines: one UUID per non-empty line, in order; a line without ':' raises. */
  function MessageUuids(lines: seq<string>): (r: Result<seq<string>>)
    decreases |lines|
  {
    if lines == [] then Ok([])
    else if lines[0] == "" then MessageUuids(lines[1..])
    else
      match MessageUuid(lines[0])
      case Err(m) => Err(m)
      case Ok(u) =>
        match MessageUuids(lines[1..])
        case Err(m) => Err(m)
        case Ok(us) => Ok([u] + us)
  }

  /** `get_messages(name)`: the listing is `output`. */
  function GetMessages(output: string): Result<seq<string>>
  {
    MessageUuids(Text.SplitLines(output))
  }

  /** The listing fails exactly when some non-empty line has no ':'. */
  lemma {:induction false} MessageUuidsFails(lines: seq<string>)
    ensures MessageUuids(lines).Err? <==> exists i :: 0 <= i < |lines| && lines[i] != "" && ':' !in lines[i]
    decreases |lines|
  {
    if lines != [] {
      MessageUuidsFails(lines[1..]);
      if lines[0] != "" && ':' !in lines[0] {
        Text.SplitNoSep(lines[0], ':');
      } else if lines[0] != "" {
        var i :| 0 <= i < |lines[0]| && lines[0][i] == ':';
        assert |Text.Split(lines[0], ':')| >= 2 by { SplitFindsSep(lines[0], ':', i); }
      }
      if exists i :: 0 <= i < |lines[1..]| && lines[1..][i] != "" && ':' !in lines[1..][i] {
        var i :| 0 <= i < |lines[1..]| && lines[1..][i] != "" && ':' !in lines[1..][i];
        assert lines[i + 1] == lines[1..][i];
      }
      if exists i :: 0 <= i < |lines| && lines[i] != "" && ':' !in lines[i] {
        var i :| 0 <= i < |lines| && lines[i] != "" && ':' !in lines[i];
        if i > 0 {
          assert lines[1..][i - 1] == lines[i];
        }
      }
    }
  }

  /** A string holding the separator splits into at least two pieces. */
  lemma {:induction false} SplitFindsSep(s: string, sep: char, i: nat)
    requires i < |s| && s[i] == sep
    ensures |Text.Split(s, sep)| >= 2
    decreases i
  {
    if s[0] != sep {
      SplitFindsSep(s[1..], sep, i - 1);
    } else {
      assert Text.Split(s, sep) == [""] + Text.Split(s[1..], sep);
    }
  }

  /** The text `xe` prints before a message's UUID. */
  const MessageHead := "uuid ( RO)    : "

  /** The listing `xe` prints for some messages: one "uuid ( RO)    : <uuid>" line each. */
  function MessageListing(uuids: seq<string>): (lines: seq<string>)
    ensures |lines| == |uuids|
  {
    if uuids == [] then [] else [MessageHead + uuids[0]] + MessageListing(uuids[1..])
  }

  /** A character of a UUID as `xe` prints it: a lower-case hexadecimal digit or a dash. */
  predicate IsUuidChar(c: char)
  {
    '0' <= c <= '9' || 'a' <= c <= 'f' || c == '-'
  }

  predicate IsUuidText(u: string)
  {
    u != [] && forall i :: 0 <= i < |u| ==> IsUuidChar(u[i])
  }

  lemma UuidCharIsPlain(c: char)
    requires IsUuidChar(c)
    ensures c !in Text.Whitespace && c !in Text.LineBreaks && c != ':'
  {
  }

  lemma {:induction false} MessageHeadShape()
    ensures forall c :: c in MessageHead ==> c !in Text.LineBreaks
    ensures MessageHead == "uuid ( RO)    " + [':'] + " " && ':' !in "uuid ( RO)    "
  {
  }

  /** Parsing the listing of some messages gives back their UUIDs, in order. */
  lemma {:induction false} MessagesRoundTrip(uuids: seq<string>)
    requires forall i :: 0 <= i < |uuids| ==> IsUuidText(uuids[i])
    ensures GetMessages(Text.Unlines(MessageListing(uuids))) == Ok(uuids)
  {
    var lines := MessageListing(uuids);
    forall i | 0 <= i < |lines|
      ensures forall c :: c in lines[i] ==> c !in Text.LineBreaks
    {
      ListingLine(uuids, i);
    }
    Text.SplitLinesOfLines(lines);
    MessageUuidsOfListing(uuids);
  }

  lemma {:induction false} ListingLine(uuids: seq<string>, i: nat)
    requires i < |uuids| && IsUuidText(uuids[i])
    ensures MessageListing(uuids)[i] == MessageHead + uuids[i]
    ensures forall c :: c in MessageListing(uuids)[i] ==> c !in Text.LineBreaks
    decreases i
  {
    if i > 0 {
      ListingLine(uuids[1..], i - 1);
    }
    var u := uuids[i];
    MessageHeadShape();
    forall c | c in MessageHead + u ensures c !in Text.LineBreaks {
      if c !in MessageHead {
        var k :| 0 <= k < |u| && u[k] == c;
        UuidCharIsPlain(u[k]);
      }
    }
  }

  lemma {:induction false} MessageUuidsOfListing(uuids: seq<string>)
    requires forall i :: 0 <= i < |uuids| ==> IsUuidText(uuids[i])
    ensures MessageUuids(MessageListing(uuids)) == Ok(uuids)
    decreases |uuids|
  {
    if uuids != [] {
      var lines := MessageListing(uuids);
      assert lines[0] == MessageHead + uuids[0] && lines[1..] == MessageListing(uuids[1..]);
      MessageUuidsOfListing(uuids[1..]);
      MessageUuidOfLine(uuids[0]);
      assert lines[0] != "";
      assert [uuids[0]] + uuids[1..] == uuids;
    }
  }

  /** One listing line gives back its UUID. */
  lemma {:induction false} MessageUuidOfLine(u: string)
    requires IsUuidText(u)
    ensures MessageUuid(MessageHead + u) == Ok(u)
  {
    var head := "uuid ( RO)    ";
    var field := " " + u;
    MessageHeadShape();
    assert ':' !in field by {
      forall k | 0 <= k < |field| ensures field[k] != ':' {
        if k > 0 {
          assert field[k] == u[k - 1];
          UuidCharIsPlain(u[k - 1]);
        }
      }
    }
    assert MessageHead + u == head + [':'] + field;
    Text.SplitPrefix(head, field, ':');
    Text.SplitNoSep(field, ':');
    assert Text.Split(MessageHead + u, ':')[1] == field;
    UuidCharIsPlain(u[0]);
    UuidCharIsPlain(u[|u| - 1]);
    StripSpaceBefore(u);
  }

  lemma {:induction false} StripSpaceBefore(u: string)
    requires u != [] && u[0] !in Text.Whitespace && u[|u| - 1] !in Text.Whitespace
    ensures Text.Strip(" " + u, Text.Whitespace) == u
  {
    assert (" " + u)[1..] == u;
    assert ' ' in Text.Whitespace;
    assert Text.StripLeft(" " + u, Text.Whitespace) == Text.StripLeft(u, Text.Whitespace);
  }

  // ---------------------------------------------------------------- EFI variables and binaries

  /**
    `get_efi_var(var, guid)`: nothing when the efivarfs file is absent,
    otherwise its content after the 4 attribute bytes.
  */
  function GetEfiVar(present: bool, content: Bytes): (r: Bytes)
    ensures !present ==> r == []
    ensures present && |content| >= 4 ==> content == content[..4] + r
    ensures present && |content| < 4 ==> r == []
  {
    if !present then [] else if |content| < 4 then [] else content[4..]
  }

  /** `set_efi_var` writes the 4 attribute bytes followed by the data: `get_efi_var` reads the data back. */
  lemma EfiVarRoundTrip(attrs: Bytes, data: Bytes)
    requires |attrs| == 4
    ensures GetEfiVar(true, attrs + data) == data
  {
    assert (attrs + data)[4..] == data;
  }

  /** `efi.EFI_HEADER_MAGIC` ("MZ") as ASCII bytes. */
  const EfiHeaderMagic: Bytes := [77, 90]

  /** The bytes `bytes.split()` treats as whitespace: space, \t, \n, \r, \x0b, \x0c. */
  predicate IsSpaceByte(b: Byte)
  {
    b == 32 || 9 <= b <= 13
  }

  /** `s.split(sep)` on bytes, for a one-byte separator. */
  function SplitBytes(s: Bytes, sep: Byte): (parts: seq<Bytes>)
    ensures |parts| >= 1
    ensures forall i, j :: 0 <= i < |parts| && 0 <= j < |parts[i]| ==> parts[i][j] != sep
    decreases |s|
  {
    if s == [] then [[]]
    else if s[0] == sep then [[]] + SplitBytes(s[1..], sep)
    else
      var rest := SplitBytes(s[1..], sep);
      [[s[0]] + rest[0]] + rest[1..]
  }

  /** `sep.join(parts)` on bytes, for a one-byte separator. */
  function JoinBytes(parts: seq<Bytes>, sep: Byte): Bytes
    decreases |parts|
  {
    if parts == [] then []
    else if |parts| == 1 then parts[0]
    else parts[0] + [sep] + JoinBytes(parts[1..], sep)
  }

  /** Splitting at a separator and joining the pieces with it gives the bytes back. */
  lemma {:induction false} SplitBytesJoin(s: Bytes, sep: Byte)
    ensures JoinBytes(SplitBytes(s, sep), sep) == s
    decreases |s|
  {
    if s == [] {
    } else if s[0] == sep {
      SplitBytesJoin(s[1..], sep);
      JoinEmptyHead(SplitBytes(s[1..], sep), sep);
      assert [sep] + s[1..] == s;
    } else {
      SplitBytesJoin(s[1..], sep);
      JoinGrowHead(s[0], SplitBytes(s[1..], sep), sep);
      assert [s[0]] + s[1..] == s;
    }
  }

  /** An empty first piece contributes only the separator after it. */
  lemma JoinEmptyHead(rest: seq<Bytes>, sep: Byte)
    requires |rest| >= 1
    ensures JoinBytes([[]] + rest, sep) == [sep] + JoinBytes(rest, sep)
  {
    assert ([[]] + rest)[1..] == rest;
  }

  /** A byte put in front of the first piece comes first in the join. */
  lemma JoinGrowHead(b: Byte, rest: seq<Bytes>, sep: Byte)
    requires |rest| >= 1
    ensures JoinBytes([[b] + rest[0]] + rest[1..], sep) == [b] + JoinBytes(rest, sep)
  {
    var parts := [[b] + rest[0]] + rest[1..];
    if |rest| == 1 {
      assert rest == [rest[0]];
    } else {
      assert parts[1..] == rest[1..];
      assert JoinBytes(rest, sep) == rest[0] + [sep] + JoinBytes(rest[1..], sep);
    }
  }

  /** The number of whitespace bytes `s` starts with. */
  function LeadingSpaces(s: Bytes): (k: nat)
    ensures k <= |s|
    ensures forall i :: 0 <= i < k ==> IsSpaceByte(s[i])
    ensures k < |s| ==> !IsSpaceByte(s[k])
    decreases |s|
  {
    if s == [] || !IsSpaceByte(s[0]) then 0 else 1 + LeadingSpaces(s[1..])
  }

  /**
    `s.split()[0]` is the run of non-whitespace bytes that begins right after the
    leading whitespace of `s` and ends at the next whitespace byte or the end;
    it is empty exactly when `s` is all whitespace.
  */
  lemma {:induction false} FirstTokenShape(s: Bytes)
    ensures LeadingSpaces(s) + |FirstToken(s)| <= |s|
    ensures FirstToken(s) == s[LeadingSpaces(s)..LeadingSpaces(s) + |FirstToken(s)|]
    ensures LeadingSpaces(s) + |FirstToken(s)| < |s| ==> IsSpaceByte(s[LeadingSpaces(s) + |FirstToken(s)|])
    ensures FirstToken(s) == [] <==> LeadingSpaces(s) == |s|
    decreases |s|
  {
    if s == [] {
    } else if IsSpaceByte(s[0]) {
      FirstTokenShape(s[1..]);
      SliceOfTail(s, LeadingSpaces(s[1..]), |FirstToken(s[1..])|);
    } else {
      TokenAtStart(s);
    }
  }

  /** A slice of `s[1..]` is the same slice of `s`, one byte later. */
  lemma SliceOfTail(s: Bytes, k: nat, n: nat)
    requires s != [] && k + n <= |s| - 1
    ensures s[1..][k..k + n] == s[k + 1..k + 1 + n]
    ensures k + n < |s| - 1 ==> s[1..][k + n] == s[k + 1 + n]
  {
  }

  /** A token at the very start of `s` is the leading non-whitespace run. */
  lemma TokenAtStart(s: Bytes)
    requires s != [] && !IsSpaceByte(s[0])
    ensures LeadingSpaces(s) == 0 && FirstToken(s) == [s[0]] + Run(s[1..])
    ensures |FirstToken(s)| <= |s| && FirstToken(s) == s[0..|FirstToken(s)|]
    ensures |FirstToken(s)| < |s| ==> IsSpaceByte(s[|FirstToken(s)|])
  {
    var r := Run(s[1..]);
    assert s[0..1 + |r|] == [s[0]] + s[1..][..|r|];
    if 1 + |r| < |s| {
      assert s[1..][|r|] == s[1 + |r|];
    }
  }

  /** `needle in s` on bytes. */
  predicate HasBytes(s: Bytes, needle: Bytes)
    decreases |s|
  {
    (|needle| <= |s| && s[..|needle|] == needle) || (s != [] && HasBytes(s[1..], needle))
  }

  /** `s.split()[0]`: the first run of non-whitespace bytes (empty when there is none). */
  function FirstToken(s: Bytes): (t: Bytes)
    ensures forall i :: 0 <= i < |t| ==> !IsSpaceByte(t[i])
    decreases |s|
  {
    if s == [] then []
    else if IsSpaceByte(s[0]) then FirstToken(s[1..])
    else [s[0]] + Run(s[1..])
  }

  /** The leading run of non-whitespace bytes. */
  function Run(s: Bytes): (t: Bytes)
    ensures |t| <= |s| && t == s[..|t|]
    ensures forall i :: 0 <= i < |t| ==> !IsSpaceByte(t[i])
    ensures |t| < |s| ==> IsSpaceByte(s[|t|])
    decreases |s|
  {
    if s == [] || IsSpaceByte(s[0]) then [] else [s[0]] + Run(s[1..])
  }

  /** `b.decode('ascii')`: fails on a byte above 127. */
  function Ascii(b: Bytes): (r: Result<string>)
    ensures r.Ok? <==> forall i :: 0 <= i < |b| ==> b[i] < 128
    ensures r.Ok? ==> |r.value| == |b| && forall i :: 0 <= i < |b| ==> r.value[i] as int == b[i]
  {
    if exists i :: 0 <= i < |b| && b[i] >= 128 then Err("UnicodeDecodeError: 'ascii' codec can't decode byte")
    else Ok(seq(|b|, i requires 0 <= i < |b| => b[i] as char))
  }

  /** The lines of the `find /boot` listing that hold the magic, in order. */
  function WithMagic(lines: seq<Bytes>): (r: seq<Bytes>)
    ensures |r| <= |lines|
    ensures forall i :: 0 <= i < |r| ==> HasBytes(r[i], EfiHeaderMagic)
  {
    if lines == [] then []
    else
      var init := WithMagic(lines[..|lines| - 1]);
      if HasBytes(lines[|lines| - 1], EfiHeaderMagic) then init + [lines[|lines| - 1]] else init
  }

  /** The path of each line that holds the magic, decoded as ASCII, in listing order; the first undecodable one raises. */
  function EfiBins(lines: seq<Bytes>): Result<seq<string>>
  {
    if lines == [] then Ok([])
    else
      var init := EfiBins(lines[..|lines| - 1]);
      var last := lines[|lines| - 1];
      if init.Err? || !HasBytes(last, EfiHeaderMagic) then init
      else
        match PathOf(last)
        case Err(m) => Err(m)
        case Ok(path) => Ok(init.value + [path])
  }

  /** One more line: kept when it holds the magic, where its path may raise. */
  lemma EfiBinsStep(lines: seq<Bytes>, i: nat)
    requires i < |lines|
    ensures var init := EfiBins(lines[..i]);
            EfiBins(lines[..i + 1]) == if init.Err? || !HasBytes(lines[i], EfiHeaderMagic) then init
                                       else if PathOf(lines[i]).Err? then Err(PathOf(lines[i]).msg)
                                       else Ok(init.value + [PathOf(lines[i]).value])
  {
    assert lines[..i + 1][..i] == lines[..i];
  }

  /** Once a prefix of the listing raises, the whole listing raises the same error. */
  lemma {:induction false} EfiBinsErrPrefix(lines: seq<Bytes>, n: nat)
    requires n <= |lines| && EfiBins(lines[..n]).Err?
    ensures EfiBins(lines) == EfiBins(lines[..n])
    decreases |lines| - n
  {
    if n < |lines| {
      var m := |lines| - 1;
      assert lines[..m][..n] == lines[..n];
      EfiBinsErrPrefix(lines[..m], n);
      assert lines[..|lines|] == lines;
    } else {
      assert lines[..n] == lines;
    }
  }

  /**
    `get_all_efi_bins()`: `listing` is what `echo $file $(head -c 2 $file)` prints
    for every file under /boot.  The listing is split on '\n'; every piece
    holding "MZ" contributes its first word, decoded as ASCII, in order.
  */
  method GetAllEfiBins(listing: Bytes) returns (r: Result<seq<string>>)
    ensures r == EfiBins(SplitBytes(listing, 10))
  {
    var files := SplitBytes(listing, 10);
    var binaries: seq<string> := [];
    var i := 0;
    while i < |files|
      invariant 0 <= i <= |files|
      invariant EfiBins(files[..i]) == Ok(binaries)
    {
      EfiBinsStep(files, i);
      if HasBytes(files[i], EfiHeaderMagic) {
        var path := PathOf(files[i]);
        if path.Err? {
          EfiBinsErrPrefix(files, i + 1);
          return Err(path.msg);
        }
        binaries := binaries + [path.value];
      }
      i := i + 1;
    }
    assert files[..i] == files;
    r := Ok(binaries);
  }

  /** The lines kept are exactly the lines holding the magic. */
  lemma {:induction false} WithMagicMembers(lines: seq<Bytes>)
    ensures forall l :: l in WithMagic(lines) <==> l in lines && HasBytes(l, EfiHeaderMagic)
    decreases |lines|
  {
    if lines != [] {
      var init := lines[..|lines| - 1];
      WithMagicMembers(init);
      assert lines == init + [lines[|lines| - 1]];
    }
  }

  /** The path a line holding the magic contributes: its first word, decoded as ASCII. */
  function PathOf(line: Bytes): Result<string>
  {
    Ascii(FirstToken(line))
  }

  /**
    The binaries found are the first words of the lines holding the magic, one
    each and in order.
  */
  lemma {:induction false} EfiBinsPaths(lines: seq<Bytes>)
    requires EfiBins(lines).Ok?
    ensures var found := WithMagic(lines);
            && |EfiBins(lines).value| == |found|
            && forall i :: 0 <= i < |found| ==> PathOf(found[i]) == Ok(EfiBins(lines).value[i])
    decreases |lines|
  {
    if lines != [] {
      var init := lines[..|lines| - 1];
      var last := lines[|lines| - 1];
      assert EfiBins(init).Ok?;
      EfiBinsPaths(init);
      if HasBytes(last, EfiHeaderMagic) {
        assert PathOf(last).Ok?;
        assert EfiBins(lines).value == EfiBins(init).value + [PathOf(last).value];
      }
    }
  }

  /** The listing raises exactly when the first word of some line holding the magic is not ASCII. */
  lemma {:induction false} EfiBinsFails(lines: seq<Bytes>)
    ensures var found := WithMagic(lines);
            EfiBins(lines).Err? <==> exists i :: 0 <= i < |found| && PathOf(found[i]).Err?
    decreases |lines|
  {
    if lines != [] {
      var init := lines[..|lines| - 1];
      var last := lines[|lines| - 1];
      EfiBinsFails(init);
      var found0, found := WithMagic(init), WithMagic(lines);
      if HasBytes(last, EfiHeaderMagic) {
        assert found == found0 + [last];
        if EfiBins(init).Err? {
          var i :| 0 <= i < |found0| && PathOf(found0[i]).Err?;
          assert found[i] == found0[i] && PathOf(found[i]).Err?;
          assert EfiBins(lines) == EfiBins(init);
          assert EfiBins(lines).Err?;
          assert exists j :: 0 <= j < |WithMagic(lines)| && PathOf(WithMagic(lines)[j]).Err?;
        } else {
          assert forall i :: 0 <= i < |found0| ==> PathOf(found[i]) == PathOf(found0[i]) && PathOf(found0[i]).Ok?;
          assert found[|found0|] == last;
          assert EfiBins(lines).Err? <==> PathOf(last).Err?;
        }
      } else {
        assert found == found0;
      }
    }
  }

  /** A line "<path> <header>" whose path has no whitespace yields the path as its first word. */
  lemma {:induction false} FirstTokenOfLine(path: Bytes, header: Bytes)
    requires path != [] && forall i :: 0 <= i < |path| ==> !IsSpaceByte(path[i])
    ensures FirstToken(path + [32] + header) == path
  {
    var line := path + [32] + header;
    assert line[0] == path[0] && !IsSpaceByte(line[0]);
    assert line[1..] == path[1..] + [32] + header;
    RunOf(path[1..], header);
    assert [path[0]] + path[1..] == path;
  }

  lemma {:induction false} RunOf(w: Bytes, header: Bytes)
    requires forall i :: 0 <= i < |w| ==> !IsSpaceByte(w[i])
    ensures Run(w + [32] + header) == w
    decreases |w|
  {
    if w == [] {
      assert (w + [32] + header)[0] == 32;
    } else {
      assert (w + [32] + header)[1..] == w[1..] + [32] + header;
      RunOf(w[1..], header);
      assert [w[0]] + w[1..] == w;
    }
  }

  /** A line whose header is the magic holds the magic. */
  lemma {:induction false} MagicHeaderFound(path: Bytes)
    ensures HasBytes(path + [32] + EfiHeaderMagic, EfiHeaderMagic)
    decreases |path|
  {
    var line := path + [32] + EfiHeaderMagic;
    if path == [] {
      assert line[1..] == EfiHeaderMagic;
      assert line[1..][..2] == EfiHeaderMagic;
    } else {
      assert line[1..] == path[1..] + [32] + EfiHeaderMagic;
      MagicHeaderFound(path[1..]);
    }
  }

  // ---------------------------------------------------------------- migration parameters

  /** `pool-param-get default-SR` on a pool. */
  function DefaultSrOf(w: World, pool: string): SrRef
  {
    if pool in w.defaultSr then Sr(w.defaultSr[pool]) else NotInDatabase
  }

  /** Every disk of a VM mapped to one SR. */
  function DiskMap(disks: seq<Uuid>, sr: SrRef): (m: map<Uuid, SrRef>)
  {
    map d | d in disks :: sr
  }

  /** Every VIF of a VM mapped to one network. */
  function VifMap(vifs: seq<Uuid>, network: string): (m: map<Uuid, string>)
  {
    map v | v in vifs :: network
  }

  /** What `get_sr()` needs: the VM has a first disk. */
  const NoDisk := "IndexError: list index out of range"

  /**
    The parameters `migrate(target_host, sr, network)` passes to `xe vm-migrate`
    for VM `vm` of pool `fromPool`, to the host `targetUuid` of `targetPool`.
    A destination SR equal to the VM's current SR (that of its first disk) is
    dropped.  Storage motion is used across pools, for a destination SR or for a
    network; it names the target pool's master and credentials, maps every disk
    to the destination SR (or else the target pool's default SR) and, across
    pools, every VIF to the network (or else the remote master's management
    network).
  */
  function MigrationParams(w: World, vm: Uuid, fromPool: string, targetUuid: string, targetPool: PoolInfo,
                           sr: Option<Uuid>, network: Option<string>): Result<MigrateParams>
  {
    if vm !in w.vms then Err("UUID_INVALID")
    else if sr.Some? && FirstDiskSr(w, vm).None? then Err(NoDisk)
    else
      var destSr := if sr.Some? && FirstDiskSr(w, vm) == sr then None else sr;
      var crossPool := fromPool != targetPool.uuid;
      var live := w.vms[vm].power == Running;
      if !crossPool && destSr.None? && network.None? then Ok(MigrateParams(vm, targetUuid, live, None))
      else
        var srRef := if destSr.Some? then Sr(destSr.value) else DefaultSrOf(w, targetPool.uuid);
        var net := if network.Some? then network.value else ManagementNetwork(w, targetPool.master);
        Ok(MigrateParams(vm, targetUuid, live,
                         Some(Remote(targetPool.master, targetPool.masterCredentials.user,
                                     targetPool.masterCredentials.password,
                                     DiskMap(w.vms[vm].disks, srRef),
                                     if crossPool then Some(VifMap(w.vms[vm].vifs, net)) else None))))
  }

  /**
    What the parameters say.  Migration raises only for an unknown VM, or for a
    destination SR when the VM has no disk.  'live' is set exactly for a
    running VM.  Storage motion is used exactly when the pools differ, a
    destination SR other than the current one is given, or a network is given;
    it carries the target master's address and credentials, a VDI map whose
    keys are exactly the VM's disks, all mapped to the destination SR if one
    remains and else to the target pool's default SR, and a VIF map over every
    VIF exactly when the pools differ, to the network given or else the remote
    master's management network.
  */
  lemma MigrationParamsMeaning(w: World, vm: Uuid, fromPool: string, targetUuid: string, targetPool: PoolInfo,
                               sr: Option<Uuid>, network: Option<string>)
    ensures var p := MigrationParams(w, vm, fromPool, targetUuid, targetPool, sr, network);
            p.Err? <==> vm !in w.vms || (sr.Some? && FirstDiskSr(w, vm).None?)
    ensures var p := MigrationParams(w, vm, fromPool, targetUuid, targetPool, sr, network);
            p.Ok? ==>
              var keep := sr.Some? && FirstDiskSr(w, vm) != sr;
              var crossPool := fromPool != targetPool.uuid;
              && p.value.vm == vm && p.value.hostUuid == targetUuid
              && (p.value.live <==> w.vms[vm].power == Running)
              && (p.value.remote.Some? <==> crossPool || keep || network.Some?)
              && (p.value.remote.Some? ==>
                    var rem := p.value.remote.value;
                    && rem.master == targetPool.master
                    && rem.username == targetPool.masterCredentials.user
                    && rem.password == targetPool.masterCredentials.password
                    && (forall d :: d in rem.vdiMap <==> d in w.vms[vm].disks)
                    && (forall d :: d in rem.vdiMap ==>
                          rem.vdiMap[d] == if keep then Sr(sr.value) else DefaultSrOf(w, targetPool.uuid))
                    && (rem.vifMap.Some? <==> crossPool)
                    && (rem.vifMap.Some? ==>
                          && (forall v :: v in rem.vifMap.value <==> v in w.vms[vm].vifs)
                          && forall v :: v in rem.vifMap.value ==>
                               rem.vifMap.value[v] == if network.Some? then network.value
                                                      else ManagementNetwork(w, targetPool.master)))
  {
  }

  /** Migrating to the SR the VM is on, within its pool and without network, moves no storage. */
  lemma SameSrIsNoStorageMotion(w: World, vm: Uuid, pool: string, targetUuid: string, targetPool: PoolInfo)
    requires vm in w.vms && FirstDiskSr(w, vm).Some? && targetPool.uuid == pool
    ensures var p := MigrationParams(w, vm, pool, targetUuid, targetPool, FirstDiskSr(w, vm), None);
            p.Ok? && p.value.remote.None?
  {
  }

  // ---------------------------------------------------------------- destroy

  /** No UUID occurs twice. */
  predicate Distinct(s: seq<Uuid>)
  {
    forall i, j :: 0 <= i < j < |s| ==> s[i] != s[j]
  }

  /** `vdi-destroy` for each disk, in order. */
  function VdiDestroys(disks: seq<Uuid>): (p: seq<Command>)
    ensures |p| == |disks| && forall i :: 0 <= i < |disks| ==> p[i] == VdiDestroy(disks[i])
  {
    seq(|disks|, i requires 0 <= i < |disks| => VdiDestroy(disks[i]))
  }

  /**
    The commands `destroy()` issues for VM `vm` of world `w`: a forced shutdown
    when it is not halted, the destruction of each of its disks (listed once,
    before any is destroyed), then of the VM record.
  */
  function DestroyCommands(w: World, vm: Uuid): (p: seq<Command>)
    requires vm in w.vms
  {
    (if w.vms[vm].power != Halted then [VmShutdown(vm, true)] else []) + VdiDestroys(w.vms[vm].disks) + [VmDestroy(vm)]
  }

  /** The record of `vm` halted. */
  function Halt(w: World, vm: Uuid): World
    requires vm in w.vms
  {
    w.(vms := w.vms[vm := w.vms[vm].(power := Halted)])
  }

  // ---------------------------------------------------------------- the VM handle

  const LinkLocalPrefix := "169.254."
  const BothForces := "AssertionError: force and force_if_fails cannot be both True"
  const NoMainSr := "AssertionError: the host has no main SR"

  /** An address `try_get_and_store_ip` accepts: present, non-empty and not link-local. */
  predicate Routable(address: Option<string>)
  {
    address.Some? && address.value != "" && !LegacyCommon.StartsWith(address.value, LinkLocalPrefix)
  }

  class Vm {
    const uuid: Uuid
    var host: Host
    /** The host the VM was on before its last migration. */
    var previousHost: Option<Host>
    var ip: Option<string>

    /** `VM(uuid, host)`. */
    constructor (uuid: Uuid, host: Host)
      ensures this.uuid == uuid && this.host == host && previousHost.None? && ip.None?
    {
      this.uuid := uuid;
      this.host := host;
      previousHost := None;
      ip := None;
    }

    /**
      `try_get_and_store_ip()`: `address` is the VM's networks/0/ip parameter
      (none when the key is unknown).  A missing, empty or link-local address
      is refused and the stored IP is kept; any other is stored.
    */
    method TryGetAndStoreIp(address: Option<string>) returns (ok: bool)
      modifies this
      ensures ok <==> Routable(address)
      ensures ip == (if ok then address else old(ip))
      ensures host == old(host) && previousHost == old(previousHost)
    {
      if address.None? || address.value == "" || LegacyCommon.StartsWith(address.value, LinkLocalPrefix) {
        return false;
      }
      ip := address;
      ok := true;
    }

    /**
      `shutdown(force, force_if_fails)`: `xe vm-shutdown`, with `--force` when
      `force`; when it fails and `force_if_fails`, one forced retry.  Both flags
      together are refused before anything is sent.
    */
    method Shutdown(force: bool, forceIfFails: bool) returns (r: Result<()>)
      requires Valid(host.plane.world)
      modifies host.plane
      ensures Valid(host.plane.world)
      ensures force && forceIfFails ==>
                r == Err(BothForces) && host.plane.world == old(host.plane.world) && host.plane.log == old(host.plane.log)
      ensures !(force && forceIfFails) ==>
                var w0, n := old(host.plane.world), |old(host.plane.log)|;
                var halts := uuid in w0.vms && w0.vms[uuid].power != Halted;
                var retried := forceIfFails && (n in host.plane.faults || !halts);
                && host.plane.log == old(host.plane.log) + [VmShutdown(uuid, force)]
                                     + (if retried then [VmShutdown(uuid, true)] else [])
                && (r.Ok? <==> halts && (n !in host.plane.faults || (forceIfFails && n + 1 !in host.plane.faults)))
                && host.plane.world == (if r.Ok? then Halt(w0, uuid) else w0)
    {
      if force && forceIfFails {
        return Err(BothForces);
      }
      var plane := host.plane;
      r := plane.Shutdown(uuid, force);
      if r.Err? && forceIfFails {
        r := plane.Shutdown(uuid, true);
      }
    }

    /** The first phase of `destroy()`: a VM that is not halted is shut down by force. */
    method HaltForDestroy() returns (r: Result<()>)
      requires Valid(host.plane.world) && uuid in host.plane.world.vms
      modifies host.plane
      ensures Valid(host.plane.world)
      ensures var w0 := old(host.plane.world);
              && (w0.vms[uuid].power == Halted ==> r.Ok? && host.plane.world == w0 && host.plane.log == old(host.plane.log))
              && (w0.vms[uuid].power != Halted ==>
                    && host.plane.log == old(host.plane.log) + [VmShutdown(uuid, true)]
                    && (r.Ok? <==> |old(host.plane.log)| !in host.plane.faults)
                    && host.plane.world == (if r.Ok? then Halt(w0, uuid) else w0))
    {
      if host.plane.world.vms[uuid].power != Halted {
        r := Shutdown(true, false);
      } else {
        r := Ok(());
      }
    }

    /**
      The loop of `destroy()`: `destroy_vdi` for each disk in turn, stopping at
      the first failure.  It succeeds exactly when no injected fault hits, every
      disk is a VDI and no disk is listed twice; then those VDIs are gone.  Only
      disk lists, VDIs and VBDs change.
    */
    method DestroyDisks(disks: seq<Uuid>) returns (r: Result<()>)
      requires Valid(host.plane.world)
      modifies host.plane
      ensures Valid(host.plane.world)
      ensures |old(host.plane.log)| <= |host.plane.log| <= |old(host.plane.log)| + |disks|
      ensures host.plane.log == old(host.plane.log) + VdiDestroys(disks)[..|host.plane.log| - |old(host.plane.log)|]
      ensures r.Ok? <==> && NoFaults(host.plane.faults, |old(host.plane.log)|, |disks|) && Distinct(disks)
                         && forall i :: 0 <= i < |disks| ==> disks[i] in old(host.plane.world).vdis
      ensures r.Ok? ==> |host.plane.log| == |old(host.plane.log)| + |disks|
      ensures r.Err? ==> |host.plane.log| > |old(host.plane.log)|
      ensures r.Ok? ==> forall d :: d in host.plane.world.vdis <==> d in old(host.plane.world).vdis && d !in disks
      ensures host.plane.world.vms.Keys == old(host.plane.world).vms.Keys
      ensures forall u :: u in host.plane.world.vms ==>
                host.plane.world.vms[u] == old(host.plane.world).vms[u].(disks := host.plane.world.vms[u].disks)
    {
      var plane := host.plane;
      ghost var w0, log0 := plane.world, plane.log;
      var i := 0;
      assert VdiDestroys(disks)[..0] == [] && disks[..0] == [];
      while i < |disks|
        invariant Valid(plane.world)
        invariant DestroyedSoFar(w0, log0, plane.faults, disks, i, plane.world, plane.log)
      {
        ghost var log1, w1 := plane.log, plane.world;
        var destroyed := plane.DestroyVdi(disks[i]);
        if destroyed.Err? {
          DestroyedStop(w0, log0, plane.faults, disks, i, w1, log1);
          return Err(destroyed.msg);
        }
        DestroyedStep(w0, log0, plane.faults, disks, i, w1, log1, plane.world);
        i := i + 1;
      }
      DestroyedDone(w0, log0, plane.faults, disks, plane.world, plane.log);
      r := Ok(());
    }

    /**
      The last two phases of `destroy()` on a halted VM: each disk destroyed,
      then the VM record, up to the first failure.
    */
    method DestroyHalted(disks: seq<Uuid>) returns (r: Result<()>)
      requires Valid(host.plane.world) && uuid in host.plane.world.vms
      requires host.plane.world.vms[uuid].power == Halted && disks == host.plane.world.vms[uuid].disks
      modifies host.plane
      ensures Valid(host.plane.world)
      ensures LoggedPrefix(old(host.plane.log), host.plane.log, VdiDestroys(disks) + [VmDestroy(uuid)])
      ensures r.Ok? <==> NoFaults(host.plane.faults, |old(host.plane.log)|, |disks| + 1) && Distinct(disks)
      ensures r.Ok? ==> && host.plane.world.vms.Keys == old(host.plane.world).vms.Keys - {uuid}
                        && forall d :: d in host.plane.world.vdis <==> d in old(host.plane.world).vdis && d !in disks
    {
      var plane := host.plane;
      ghost var log0 := plane.log;
      ghost var plan := VdiDestroys(disks) + [VmDestroy(uuid)];
      var gone := DestroyDisks(disks);
      ghost var m := |plane.log| - |log0|;
      assert plan[..m] == VdiDestroys(disks)[..m];
      if gone.Err? {
        return Err(gone.msg);
      }
      ghost var log1 := plane.log;
      var destroyed := plane.DestroyVm(uuid);
      assert plane.log == log0 + plan;
      assert NoFaults(plane.faults, |log0|, |disks| + 1)
             <==> NoFaults(plane.faults, |log0|, |disks|) && |log1| !in plane.faults;
      r := destroyed;
    }

    /**
      `destroy()`: the power state is read first (an unknown VM raises and
      nothing is sent); then a forced shutdown if the VM is not halted, each of
      its disks destroyed, and the VM record destroyed, in that order, up to the
      first failure.  It succeeds exactly when no injected fault hits and no
      disk is listed twice; then the VM and its disks are gone and every other
      VM remains.
    */
    method Destroy() returns (r: Result<()>)
      requires Valid(host.plane.world)
      modifies host.plane
      ensures Valid(host.plane.world)
      ensures uuid !in old(host.plane.world).vms ==>
                r.Err? && host.plane.world == old(host.plane.world) && host.plane.log == old(host.plane.log)
      ensures uuid in old(host.plane.world).vms ==>
                var plan := DestroyCommands(old(host.plane.world), uuid);
                && LoggedPrefix(old(host.plane.log), host.plane.log, plan)
                && (r.Ok? <==> NoFaults(host.plane.faults, |old(host.plane.log)|, |plan|)
                               && Distinct(old(host.plane.world).vms[uuid].disks))
      ensures r.Ok? ==> && uuid in old(host.plane.world).vms
                        && host.plane.world.vms.Keys == old(host.plane.world).vms.Keys - {uuid}
                        && forall d :: d in host.plane.world.vdis <==>
                                         d in old(host.plane.world).vdis && d !in old(host.plane.world).vms[uuid].disks
    {
      if uuid !in host.plane.world.vms {
        return Err("UUID_INVALID");
      }
      r := DestroyKnown();
    }

    /** `destroy()` on a VM the plane knows. */
    method DestroyKnown() returns (r: Result<()>)
      requires Valid(host.plane.world) && uuid in host.plane.world.vms
      modifies host.plane
      ensures Valid(host.plane.world)
      ensures var plan := DestroyCommands(old(host.plane.world), uuid);
              && LoggedPrefix(old(host.plane.log), host.plane.log, plan)
              && (r.Ok? <==> NoFaults(host.plane.faults, |old(host.plane.log)|, |plan|)
                             && Distinct(old(host.plane.world).vms[uuid].disks))
      ensures r.Ok? ==> && host.plane.world.vms.Keys == old(host.plane.world).vms.Keys - {uuid}
                        && forall d :: d in host.plane.world.vdis <==>
                                         d in old(host.plane.world).vdis && d !in old(host.plane.world).vms[uuid].disks
    {
      var plane := host.plane;
      ghost var w0, log0 := plane.world, plane.log;
      ghost var pre: seq<Command> := if w0.vms[uuid].power != Halted then [VmShutdown(uuid, true)] else [];
      var disks := plane.world.vms[uuid].disks;
      ghost var rest := VdiDestroys(disks) + [VmDestroy(uuid)];
      assert DestroyCommands(w0, uuid) == pre + rest;
      var halted := HaltForDestroy();
      if halted.Err? {
        LoggedFirst(log0, pre + rest);
        return Err(halted.msg);
      }
      assert plane.log == log0 + pre && NoFaults(plane.faults, |log0|, |pre|);
      assert plane.world.vms.Keys == w0.vms.Keys && plane.world.vdis == w0.vdis;
      assert plane.world.vms[uuid].power == Halted && plane.world.vms[uuid].disks == disks;
      r := DestroyHalted(disks);
      LoggedAfter(log0, pre, plane.log, rest);
      NoFaultsSplit(plane.faults, |log0|, |pre|, |rest|);
    }

    /**
      `clone(name)`: `xe vm-clone` under `name`, by default the VM's name with
      "_clone_for_tests" (reading the name of an unknown VM raises before
      anything is sent).  The clone is a new handle on the same host.
    */
    method Clone(name: Option<string>) returns (r: Result<Vm>)
      requires Valid(host.plane.world)
      modifies host.plane
      ensures Valid(host.plane.world)
      ensures name.None? && uuid !in old(host.plane.world).vms ==>
                r.Err? && host.plane.world == old(host.plane.world) && host.plane.log == old(host.plane.log)
      ensures name.Some? || uuid in old(host.plane.world).vms ==>
                var w0 := old(host.plane.world);
                var newName := if name.Some? then name.value else w0.vms[uuid].name + "_clone_for_tests";
                && host.plane.log == old(host.plane.log) + [VmClone(uuid, newName)]
                && (r.Ok? <==> |old(host.plane.log)| !in host.plane.faults && uuid in w0.vms)
                && (r.Ok? ==> && fresh(r.value) && r.value.uuid == w0.next && r.value.host == host
                              && r.value.previousHost.None? && r.value.ip.None?
                              && NewVm(w0, host.plane.world)
                              && host.plane.world.vms[r.value.uuid].name == newName
                              && host.plane.world.vms[r.value.uuid].description == w0.vms[uuid].description
                              && |host.plane.world.vms[r.value.uuid].disks| == |w0.vms[uuid].disks|)
      ensures r.Err? ==> host.plane.world == old(host.plane.world)
    {
      var plane := host.plane;
      var newName: string;
      if name.Some? {
        newName := name.value;
      } else {
        if uuid !in plane.world.vms {
          return Err("UUID_INVALID");
        }
        newName := plane.world.vms[uuid].name + "_clone_for_tests";
      }
      var cloned := plane.Clone(uuid, newName);
      if cloned.Err? {
        return Err(cloned.msg);
      }
      var vm := new Vm(cloned.value, host);
      r := Ok(vm);
    }

    /**
      `migrate(target_host, sr, network)`: the parameters are built (the VDI
      and VIF maps one entry at a time) and `xe vm-migrate` is sent; once it
      succeeds the handle remembers the host it left and moves to the target.
    */
    method Migrate(target: Host, sr: Option<Uuid>, network: Option<string>) returns (r: Result<()>)
      requires Valid(host.plane.world) && target.plane == host.plane
      modifies this, host.plane
      ensures Valid(target.plane.world) && ip == old(ip)
      ensures var p := MigrationParams(old(target.plane.world), uuid, old(host).pool.uuid, target.uuid, target.pool,
                                       sr, network);
              && (p.Err? ==> && r == Err(p.msg) && target.plane.world == old(target.plane.world)
                             && target.plane.log == old(target.plane.log))
              && (p.Ok? ==> && target.plane.log == old(target.plane.log) + [VmMigrate(p.value)]
                            && (r.Ok? <==> |old(target.plane.log)| !in target.plane.faults && MapsKnownSrs(p.value)))
              && (r.Ok? ==> && p.Ok? && target.plane.world.vms == old(target.plane.world).vms
                            && (p.value.remote.Some? ==>
                                  forall d :: d in p.value.remote.value.vdiMap ==>
                                    target.plane.world.vdis[d].sr == p.value.remote.value.vdiMap[d].uuid))
      ensures r.Ok? ==> host == target && previousHost == Some(old(host))
      ensures r.Err? ==> host == old(host) && previousHost == old(previousHost)
    {
      var plane := host.plane;
      var params := MigrationParamsOf(plane.world, uuid, host.pool.uuid, target.uuid, target.pool, sr, network);
      if params.Err? {
        return Err(params.msg);
      }
      KnownDisksMapped(plane.world, uuid, host.pool.uuid, target.uuid, target.pool, sr, network, params.value);
      var migrated := plane.Migrate(params.value);
      if migrated.Err? {
        return Err(migrated.msg);
      }
      previousHost := Some(host);
      host := target;
      r := Ok(());
    }

    /**
      The loop of `save_to_cache(cache_id)`: while the lookup on the host's main
      SR finds a cached VM for the id, that VM is destroyed.  Each pass removes
      a VM, so the loop ends; it ends with a lookup that finds nothing.
    */
    method DropCached(cacheId: string, h: Helpers) returns (r: Result<()>)
      requires Valid(host.plane.world) && host.mainSr.Some?
      modifies host.plane
      ensures Valid(host.plane.world)
      ensures r.Ok? ==> CachedVmSpec(host.plane.world, VmCacheKey(cacheId, h), host.mainSr) == Ok(None)
    {
      var plane := host.plane;
      var found := host.CachedVm(cacheId, host.mainSr, h);
      while found.value.Some?
        invariant Valid(plane.world)
        invariant found == CachedVmSpec(plane.world, VmCacheKey(cacheId, h), host.mainSr) && found.Ok?
        decreases |plane.world.vms.Keys|
      {
        ghost var keys := plane.world.vms.Keys;
        var oldVm := new Vm(found.value.value, host);
        CachedVmLookup(plane.world, VmCacheKey(cacheId, h), host.mainSr);
        var destroyed := oldVm.Destroy();
        if destroyed.Err? {
          return Err(destroyed.msg);
        }
        assert plane.world.vms.Keys < keys;
        found := host.CachedVm(cacheId, host.mainSr, h);
      }
      r := Ok(());
    }

    /**
      The end of `save_to_cache(cache_id)`, once no cached VM for the id is
      left: a clone named "<name> cache", whose description becomes the cache
      key.  The lookup then finds this clone (when it fits the main SR) and
      no other VM carrying the key fits.
    */
    method CloneAsCache(cacheId: string, h: Helpers) returns (r: Result<Vm>)
      requires Valid(host.plane.world) && host.mainSr.Some?
      requires CachedVmSpec(host.plane.world, VmCacheKey(cacheId, h), host.mainSr) == Ok(None)
      modifies host.plane
      ensures Valid(host.plane.world)
      ensures r.Ok? ==> CachedSlot(old(host.plane.world), host.plane.world, uuid, r.value.uuid, VmCacheKey(cacheId, h),
                                   host.mainSr.value)
      ensures r.Ok? ==> fresh(r.value) && r.value.host == host
    {
      var plane := host.plane;
      var key := VmCacheKey(cacheId, h);
      var sr := host.mainSr.value;
      if uuid !in plane.world.vms {
        return Err("UUID_INVALID");
      }
      ghost var w1 := plane.world;
      var clone := Clone(Some(plane.world.vms[uuid].name + " cache"));
      if clone.Err? {
        return Err(clone.msg);
      }
      ghost var w2 := plane.world;
      var c := clone.value.uuid;
      var marked := plane.ParamSet(c, "name-description", key);
      if marked.Err? {
        return Err(marked.msg);
      }
      CachedSlotAfter(w1, w2, plane.world, uuid, c, key, sr);
      r := Ok(clone.value);
    }

    /**
      `save_to_cache(cache_id)`: every VM cached for the id on the host's main
      SR is destroyed, then a clone of this VM named "<name> cache" becomes the
      one cached VM for the id.  Without a main SR it raises before anything
      is sent.
    */
    method SaveToCache(cacheId: string, h: Helpers) returns (r: Result<Vm>)
      requires Valid(host.plane.world)
      modifies host.plane
      ensures Valid(host.plane.world)
      ensures host.mainSr.None? ==>
                r == Err(NoMainSr) && host.plane.world == old(host.plane.world) && host.plane.log == old(host.plane.log)
      ensures r.Ok? ==> && host.mainSr.Some? && fresh(r.value) && r.value.host == host
                        && exists w1 :: CachedSlot(w1, host.plane.world, uuid, r.value.uuid, VmCacheKey(cacheId, h),
                                                    host.mainSr.value)
    {
      if host.mainSr.None? {
        return Err(NoMainSr);
      }
      var dropped := DropCached(cacheId, h);
      if dropped.Err? {
        return Err(dropped.msg);
      }
      ghost var w1 := host.plane.world;
      r := CloneAsCache(cacheId, h);
    }
  }

  /** A plan logged after the commands `pre` is logged as part of `pre` followed by it. */
  lemma {:induction false} LoggedAfter(log0: seq<Command>, pre: seq<Command>, log: seq<Command>, rest: seq<Command>)
    requires LoggedPrefix(log0 + pre, log, rest)
    ensures LoggedPrefix(log0, log, pre + rest)
  {
    var k := |log| - |log0 + pre|;
    assert (pre + rest)[..|pre| + k] == pre + rest[..k];
  }

  /** What destroying the VDIs `gone` leaves in world `w` of world `w0`: only disk lists and VDIs differ. */
  ghost predicate DisksGone(w0: World, w: World, gone: seq<Uuid>)
  {
    && w.vms.Keys == w0.vms.Keys
    && (forall d :: d in w.vdis <==> d in w0.vdis && d !in gone)
    && (forall u :: u in w.vms ==> w.vms[u] == w0.vms[u].(disks := w.vms[u].disks))
  }

  /** One more VDI destroyed, as `xe vdi-destroy` leaves the world. */
  lemma DisksGoneStep(w0: World, w1: World, w2: World, gone: seq<Uuid>, d: Uuid)
    requires DisksGone(w0, w1, gone)
    requires w2.vdis == w1.vdis - {d} && w2.vms.Keys == w1.vms.Keys
    requires forall u :: u in w1.vms ==> w2.vms[u] == w1.vms[u].(disks := Remove(w1.vms[u].disks, d))
    ensures DisksGone(w0, w2, gone + [d])
  {
  }

  /**
    The state of `destroy()`'s disk loop from world `w0` and log `log0` after
    `i` disks: their destroy commands logged, none failed, all of them were
    distinct VDIs, and they are gone from world `w`.
  */
  ghost predicate DestroyedSoFar(w0: World, log0: seq<Command>, faults: set<nat>, disks: seq<Uuid>, i: nat,
                                 w: World, log: seq<Command>)
  {
    && i <= |disks|
    && log == log0 + VdiDestroys(disks)[..i]
    && NoFaults(faults, |log0|, i) && Distinct(disks[..i])
    && (forall j :: 0 <= j < i ==> disks[j] in w0.vdis)
    && DisksGone(w0, w, disks[..i])
  }

  /** The loop state after one more VDI destroyed. */
  lemma {:induction false} DestroyedStep(w0: World, log0: seq<Command>, faults: set<nat>, disks: seq<Uuid>, i: nat,
                                         w1: World, log1: seq<Command>, w2: World)
    requires i < |disks| && DestroyedSoFar(w0, log0, faults, disks, i, w1, log1)
    requires |log1| !in faults && disks[i] in w1.vdis
    requires w2.vdis == w1.vdis - {disks[i]} && w2.vms.Keys == w1.vms.Keys
    requires forall u :: u in w1.vms ==> w2.vms[u] == w1.vms[u].(disks := Remove(w1.vms[u].disks, disks[i]))
    ensures DestroyedSoFar(w0, log0, faults, disks, i + 1, w2, log1 + [VdiDestroy(disks[i])])
  {
    assert VdiDestroys(disks)[..i + 1] == VdiDestroys(disks)[..i] + [VdiDestroy(disks[i])];
    assert disks[i] in w0.vdis && disks[i] !in disks[..i];
    DisksGoneStep(w0, w1, w2, disks[..i], disks[i]);
    DistinctSnoc(disks[..i], disks[i]);
    NoFaultsSnoc(faults, |log0|, i);
    assert disks[..i + 1] == disks[..i] + [disks[i]];
  }

  /** The loop state when the destroy command for disk `i` fails: the whole loop cannot succeed. */
  lemma {:induction false} DestroyedStop(w0: World, log0: seq<Command>, faults: set<nat>, disks: seq<Uuid>, i: nat,
                                         w1: World, log1: seq<Command>)
    requires i < |disks| && DestroyedSoFar(w0, log0, faults, disks, i, w1, log1)
    requires !(|log1| !in faults && disks[i] in w1.vdis)
    ensures log1 + [VdiDestroy(disks[i])] == log0 + VdiDestroys(disks)[..i + 1]
    ensures !(NoFaults(faults, |log0|, |disks|) && Distinct(disks) && forall j :: 0 <= j < |disks| ==> disks[j] in w0.vdis)
  {
    assert VdiDestroys(disks)[..i + 1] == VdiDestroys(disks)[..i] + [VdiDestroy(disks[i])];
    if disks[i] in w0.vdis && |log1| !in faults {
      assert disks[i] in disks[..i];
      var j :| 0 <= j < i && disks[..i][j] == disks[i];
      assert disks[j] == disks[i];
    }
  }

  /** The loop state after every disk. */
  lemma {:induction false} DestroyedDone(w0: World, log0: seq<Command>, faults: set<nat>, disks: seq<Uuid>,
                                         w: World, log: seq<Command>)
    requires DestroyedSoFar(w0, log0, faults, disks, |disks|, w, log)
    ensures log == log0 + VdiDestroys(disks)
    ensures NoFaults(faults, |log0|, |disks|) && Distinct(disks) && forall j :: 0 <= j < |disks| ==> disks[j] in w0.vdis
    ensures DisksGone(w0, w, disks)
  {
    assert disks[..|disks|] == disks;
    assert VdiDestroys(disks)[..|disks|] == VdiDestroys(disks);
  }

  /** A new element keeps a sequence free of repeats. */
  lemma DistinctSnoc(s: seq<Uuid>, x: Uuid)
    requires Distinct(s) && x !in s
    ensures Distinct(s + [x])
  {
  }

  /** A fault-free range grows by one command that did not fail. */
  lemma NoFaultsSnoc(faults: set<nat>, from: nat, n: nat)
    requires NoFaults(faults, from, n) && from + n !in faults
    ensures NoFaults(faults, from, n + 1)
  {
  }

  /** A fault-free range splits into two fault-free ranges. */
  lemma NoFaultsSplit(faults: set<nat>, from: nat, a: nat, b: nat)
    ensures NoFaults(faults, from, a + b) <==> NoFaults(faults, from, a) && NoFaults(faults, from + a, b)
  {
  }

  /**
    What `save_to_cache` leaves in world `w` (from `w1`, the world after the old
    cached VMs are gone): a new VM `c` that carries the cache key and is named
    after VM `vm` with " cache"; the lookup for the key on SR `sr` finds `c`
    when it fits the SR and nothing otherwise, and no other VM carrying the key
    fits.
  */
  ghost predicate CachedSlot(w1: World, w: World, vm: Uuid, c: Uuid, key: string, sr: Uuid)
  {
    && vm in w1.vms && c !in w1.vms && c in w.vms && vm in w.vms
    && w.vms[c].description == key
    && w.vms[c].name == w1.vms[vm].name + " cache"
    && CachedVmSpec(w, key, Some(sr)) == Ok(if SuitsSr(w, c, sr) then Some(c) else None)
    && forall v :: v in w.vms && v != c && w.vms[v].description == key ==> !SuitsSr(w, v, sr)
  }

  /** A new VM leaves every existing VM fitting the same SRs. */
  lemma SuitsSrKept(w1: World, w2: World, v: Uuid, sr: Uuid)
    requires Valid(w1) && NewVm(w1, w2) && v in w1.vms
    ensures SuitsSr(w2, v, sr) <==> SuitsSr(w1, v, sr)
  {
    if w1.vms[v].disks != [] {
      assert w1.vms[v].disks[0] in w1.vdis;
    }
  }

  /** Whether every VDI the parameters map goes to an SR the pool knows. */
  predicate MapsKnownSrs(p: MigrateParams)
  {
    p.remote.None? || forall d :: d in p.remote.value.vdiMap ==> p.remote.value.vdiMap[d].Sr?
  }

  /** The loop filling `vdi_map`: each disk mapped to the SR. */
  method BuildDiskMap(disks: seq<Uuid>, sr: SrRef) returns (m: map<Uuid, SrRef>)
    ensures forall d :: d in m <==> d in disks
    ensures forall d :: d in m ==> m[d] == sr
  {
    m := map[];
    var i := 0;
    while i < |disks|
      invariant 0 <= i <= |disks|
      invariant forall d :: d in m <==> d in disks[..i]
      invariant forall d :: d in m ==> m[d] == sr
    {
      m := m[disks[i] := sr];
      assert disks[..i + 1] == disks[..i] + [disks[i]];
      i := i + 1;
    }
    assert disks[..i] == disks;
  }

  /** The loop filling `vif_map`: each VIF mapped to the network. */
  method BuildVifMap(vifs: seq<Uuid>, network: string) returns (m: map<Uuid, string>)
    ensures forall v :: v in m <==> v in vifs
    ensures forall v :: v in m ==> m[v] == network
  {
    m := map[];
    var i := 0;
    while i < |vifs|
      invariant 0 <= i <= |vifs|
      invariant forall v :: v in m <==> v in vifs[..i]
      invariant forall v :: v in m ==> m[v] == network
    {
      m := m[vifs[i] := network];
      assert vifs[..i + 1] == vifs[..i] + [vifs[i]];
      i := i + 1;
    }
    assert vifs[..i] == vifs;
  }

  /**
    The slot left by `save_to_cache`: from `w1`, where no VM carrying the key
    fits the SR, a clone `c` of `vm` named "<name> cache" is added (`w2`) and
    its description set to the key (`w3`).
  */
  lemma CachedSlotAfter(w1: World, w2: World, w3: World, vm: Uuid, c: Uuid, key: string, sr: Uuid)
    requires Valid(w1) && Valid(w3) && vm in w1.vms
    requires CachedVmSpec(w1, key, Some(sr)) == Ok(None)
    requires NewVm(w1, w2) && c == w1.next && w2.vms[c].name == w1.vms[vm].name + " cache"
    requires w3 == w2.(vms := w2.vms[c := SetParam(w2.vms[c], "name-description", key)])
    ensures CachedSlot(w1, w3, vm, c, key, sr)
  {
    CachedVmLookup(w1, key, Some(sr));
    forall v | v in w3.vms && v != c
      ensures v in w1.vms && w3.vms[v] == w1.vms[v] && (SuitsSr(w3, v, sr) <==> SuitsSr(w1, v, sr))
    {
      SuitsSrKept(w1, w2, v, sr);
    }
    OnlyCandidate(w3, c, key, sr);
  }

  /** When `c` is the only VM carrying the key that could fit the SR, the lookup finds `c` if it fits and nothing otherwise. */
  lemma OnlyCandidate(w: World, c: Uuid, key: string, sr: Uuid)
    requires Valid(w) && c in w.vms && w.vms[c].description == key
    requires forall v :: v in w.vms && v != c && w.vms[v].description == key ==> !SuitsSr(w, v, sr)
    ensures CachedVmSpec(w, key, Some(sr)) == Ok(if SuitsSr(w, c, sr) then Some(c) else None)
  {
    CachedVmLookup(w, key, Some(sr));
  }

  /** The disks of a known VM are known VDIs, so the VDI map of its parameters names known VDIs only. */
  lemma KnownDisksMapped(w: World, vm: Uuid, fromPool: string, targetUuid: string, targetPool: PoolInfo,
                          sr: Option<Uuid>, network: Option<string>, p: MigrateParams)
    requires Valid(w) && MigrationParams(w, vm, fromPool, targetUuid, targetPool, sr, network) == Ok(p)
    ensures p.vm in w.vms
    ensures p.remote.Some? ==> forall d :: d in p.remote.value.vdiMap ==> d in w.vdis
  {
    if p.remote.Some? {
      forall d | d in p.remote.value.vdiMap
        ensures d in w.vdis
      {
        var i :| 0 <= i < |w.vms[vm].disks| && w.vms[vm].disks[i] == d;
      }
    }
  }

  /**
    `migrate`'s parameter building: `vdi_map` and `vif_map` are filled one
    entry at a time; the result is what `MigrationParams` describes.
  */
  method MigrationParamsOf(w: World, vm: Uuid, fromPool: string, targetUuid: string, targetPool: PoolInfo,
                           sr: Option<Uuid>, network: Option<string>) returns (r: Result<MigrateParams>)
    ensures r == MigrationParams(w, vm, fromPool, targetUuid, targetPool, sr, network)
  {
    if vm !in w.vms {
      return Err("UUID_INVALID");
    }
    var live := w.vms[vm].power == Running;
    var crossPool := fromPool != targetPool.uuid;
    var destSr := sr;
    if sr.Some? {
      var current := FirstDiskSr(w, vm);
      if current.None? {
        return Err(NoDisk);
      }
      if current == sr {
        destSr := None;
      }
    }
    var remote: Option<Remote> := None;
    if crossPool || destSr.Some? || network.Some? {
      var srRef := if destSr.Some? then Sr(destSr.value) else DefaultSrOf(w, targetPool.uuid);
      var vdiMap := BuildDiskMap(w.vms[vm].disks, srRef);
      assert vdiMap == DiskMap(w.vms[vm].disks, srRef);
      var vifMap: Option<map<Uuid, string>> := None;
      if crossPool {
        var net := if network.Some? then network.value else ManagementNetwork(w, targetPool.master);
        var m := BuildVifMap(w.vms[vm].vifs, net);
        assert m == VifMap(w.vms[vm].vifs, net);
        vifMap := Some(m);
      }
      remote := Some(Remote(targetPool.master, targetPool.masterCredentials.user,
                            targetPool.masterCredentials.password, vdiMap, vifMap));
    }
    r := Ok(MigrateParams(vm, targetUuid, live, remote));
  }
}
