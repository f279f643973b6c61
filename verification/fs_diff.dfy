/**
  scripts/xcpng-fs-diff.py: spot filesystem differences between a reference host
  and a tested host.  Each host's files are listed per kind (regular files and
  symlinks to files with their md5 sum, symlinks to directories and broken symlinks
  with their target), the listings are parsed into ordered dictionaries, and the
  comparison marks the reference in place before reporting what is left.
*/
module FsDiff {
  import opened Wrappers
  import Text

  // ---------------------------------------------------------------- the ignore list

  /** The patterns of `ignore_file`, in order. */
  const IgnoredFiles: seq<string> := [
    "/boot/initrd-*",
    "/boot/grub/*",
    "/boot/vmlinuz-fallback",
    "/boot/xen-fallback.gz",
    "/etc/chrony.conf",
    "/etc/firstboot.d/data/default-storage.conf",
    "/etc/firstboot.d/data/iqn.conf",
    "/etc/fstab",
    "/etc/group*",
    "/etc/grub.cfg",
    "/etc/gshadow*",
    "/etc/hostname",
    "/etc/iscsi/initiatorname.iscsi",
    "/etc/issue",
    "/etc/krb5.conf",
    "/etc/lvm/backup/*",
    "/etc/mtab",
    "/etc/machine-id",
    "/etc/passwd*",
    "/etc/pki/ca-trust/extracted/java/cacerts",
    "/etc/pki/java/cacerts",
    "/etc/shadow*",
    "/etc/ssh/ssh_host_*_key.pub",
    "/etc/ssh/ssh_host_*_key",
    "/etc/sysconfig/network",
    "/etc/sysconfig/network-scripts/" + "interface-rename-data/*",
    "/etc/sysconfig/xencommons",
    "/etc/vconsole.conf",
    "/etc/xensource-inventory",
    "/etc/xensource/boot_time_cpus",
    "/etc/xensource/ptoken",
    "/etc/xensource/xapi-ssl.pem",
    "/opt/xensource/gpg/trustdb.gpg"
  ]

  /** `fnmatch` on POSIX for patterns made of literal characters and '*': the whole name must match, and '*' matches any run of characters, '/' included. */
  predicate GlobMatch(s: string, p: string)
    decreases |s| + |p|
  {
    if p == [] then s == []
    else if p[0] == '*' then GlobMatch(s, p[1..]) || (s != [] && GlobMatch(s[1..], p))
    else s != [] && s[0] == p[0] && GlobMatch(s[1..], p[1..])
  }

  /** A pattern without '*' matches exactly itself. */
  lemma {:induction false} GlobLiteral(s: string, p: string)
    requires '*' !in p
    ensures GlobMatch(s, p) <==> s == p
    decreases |p|
  {
    if p != [] && s != [] {
      GlobLiteral(s[1..], p[1..]);
      if s[1..] == p[1..] && s[0] == p[0] {
        assert s == [s[0]] + s[1..] && p == [p[0]] + p[1..];
      }
    }
  }

  /** '*' matches any string, '/' included. */
  lemma {:induction false} StarMatchesAll(s: string)
    ensures GlobMatch(s, "*")
    decreases |s|
  {
    if s != [] {
      StarMatchesAll(s[1..]);
    }
    assert "*"[1..] == [];
  }

  /** A literal followed by '*' matches exactly the names that start with the literal. */
  lemma {:induction false} GlobPrefix(s: string, lit: string)
    requires '*' !in lit
    ensures GlobMatch(s, lit + "*") <==> |lit| <= |s| && s[..|lit|] == lit
    decreases |lit|
  {
    if lit == [] {
      assert lit + "*" == "*";
      StarMatchesAll(s);
    } else {
      assert (lit + "*")[0] == lit[0] && (lit + "*")[1..] == lit[1..] + "*";
      if s != [] {
        GlobPrefix(s[1..], lit[1..]);
        if |lit| <= |s| && s[..|lit|] == lit {
          assert s[1..][..|lit| - 1] == s[..|lit|][1..];
        }
        if |lit[1..]| <= |s[1..]| && s[1..][..|lit[1..]|] == lit[1..] && s[0] == lit[0] {
          assert s[..|lit|] == [s[0]] + s[1..][..|lit[1..]|];
        }
      }
    }
  }

  /** The characters a pattern starts with before its first '*'. */
  function LiteralHead(p: string): (h: string)
    ensures |h| <= |p| && h == p[..|h|] && '*' !in h
    ensures |h| < |p| ==> p[|h|] == '*'
  {
    if p == [] || p[0] == '*' then [] else [p[0]] + LiteralHead(p[1..])
  }

  /** A name matching a pattern starts with the pattern's literal head. */
  lemma {:induction false} GlobHead(s: string, p: string)
    requires GlobMatch(s, p)
    ensures |LiteralHead(p)| <= |s| && s[..|LiteralHead(p)|] == LiteralHead(p)
    decreases |p|
  {
    if p != [] && p[0] != '*' {
      GlobHead(s[1..], p[1..]);
      assert s[..|LiteralHead(p)|] == [s[0]] + s[1..][..|LiteralHead(p[1..])|];
    }
  }

  /** The loop of `ignore_file`: true as soon as one pattern matches. */
  function AnyMatch(name: string, patterns: seq<string>): (r: bool)
    ensures r <==> exists i :: 0 <= i < |patterns| && GlobMatch(name, patterns[i])
  {
    if patterns == [] then false
    else if GlobMatch(name, patterns[0]) then true
    else
      assert forall i :: 1 <= i < |patterns| ==> patterns[1..][i - 1] == patterns[i];
      AnyMatch(name, patterns[1..])
  }

  /** `ignore_file`. */
  predicate IgnoreFile(name: string)
  {
    AnyMatch(name, IgnoredFiles)
  }

  /** "/etc/passwd-" (the backup of the password file) is ignored. */
  lemma PasswdBackupIgnored()
    ensures IgnoreFile("/etc/passwd-")
  {
    GlobPrefix("/etc/passwd-", "/etc/passwd");
    assert "/etc/passwd" + "*" == IgnoredFiles[18];
    assert GlobMatch("/etc/passwd-", IgnoredFiles[18]);
  }

  /** A name differing from a pattern at a position before any '*' in the pattern does not match it. */
  lemma Mismatch(s: string, p: string, k: nat)
    requires k < |s| && k < |p| && s[..k] == p[..k] && '*' !in s[..k]
    requires p[k] != '*' && p[k] != s[k]
    ensures !GlobMatch(s, p)
  {
    if GlobMatch(s, p) {
      GlobHead(s, p);
      assert false;
    }
  }

  /** "/etc/hosts" matches no pattern of the ignore list. */
  lemma HostsNotIgnored()
    ensures !IgnoreFile("/etc/hosts")
  {
    forall i | 0 <= i < |IgnoredFiles| ensures !GlobMatch("/etc/hosts", IgnoredFiles[i]) {
      if i < 6 {
        HostsNotIgnoredFrom0(i);
      } else if i < 12 {
        HostsNotIgnoredFrom6(i);
      } else if i < 18 {
        HostsNotIgnoredFrom12(i);
      } else if i < 24 {
        HostsNotIgnoredFrom18(i);
      } else if i < 30 {
        HostsNotIgnoredFrom24(i);
      } else if i < 33 {
        HostsNotIgnoredFrom30(i);
      }
    }
  }

  lemma HostsNotIgnoredFrom0(i: nat)
    requires 0 <= i < 6
    ensures !GlobMatch("/etc/hosts", IgnoredFiles[i])
  {
    var s := "/etc/hosts";
    if i == 0 {
      Mismatch(s, IgnoredFiles[0], 1);
    } else if i == 1 {
      Mismatch(s, IgnoredFiles[1], 1);
    } else if i == 2 {
      Mismatch(s, IgnoredFiles[2], 1);
    } else if i == 3 {
      Mismatch(s, IgnoredFiles[3], 1);
    } else if i == 4 {
      Mismatch(s, IgnoredFiles[4], 5);
    } else if i == 5 {
      var p := IgnoredFiles[5];
      assert p[..5] == "/etc/" by {
        assert p[0] == '/' && p[1] == 'e' && p[2] == 't' && p[3] == 'c' && p[4] == '/';
      }
      Mismatch(s, IgnoredFiles[5], 5);
    }
  }

  lemma HostsNotIgnoredFrom6(i: nat)
    requires 6 <= i < 12
    ensures !GlobMatch("/etc/hosts", IgnoredFiles[i])
  {
    var s := "/etc/hosts";
    if i == 6 {
      Mismatch(s, IgnoredFiles[6], 5);
    } else if i == 7 {
      Mismatch(s, IgnoredFiles[7], 5);
    } else if i == 8 {
      Mismatch(s, IgnoredFiles[8], 5);
    } else if i == 9 {
      Mismatch(s, IgnoredFiles[9], 5);
    } else if i == 10 {
      Mismatch(s, IgnoredFiles[10], 5);
    } else if i == 11 {
      Mismatch(s, IgnoredFiles[11], 9);
    }
  }

  lemma HostsNotIgnoredFrom12(i: nat)
    requires 12 <= i < 18
    ensures !GlobMatch("/etc/hosts", IgnoredFiles[i])
  {
    var s := "/etc/hosts";
    if i == 12 {
      Mismatch(s, IgnoredFiles[12], 5);
    } else if i == 13 {
      Mismatch(s, IgnoredFiles[13], 5);
    } else if i == 14 {
      Mismatch(s, IgnoredFiles[14], 5);
    } else if i == 15 {
      Mismatch(s, IgnoredFiles[15], 5);
    } else if i == 16 {
      Mismatch(s, IgnoredFiles[16], 5);
    } else if i == 17 {
      Mismatch(s, IgnoredFiles[17], 5);
    }
  }

  lemma HostsNotIgnoredFrom18(i: nat)
    requires 18 <= i < 24
    ensures !GlobMatch("/etc/hosts", IgnoredFiles[i])
  {
    var s := "/etc/hosts";
    if i == 18 {
      Mismatch(s, IgnoredFiles[18], 5);
    } else if i == 19 {
      var p := IgnoredFiles[19];
      assert p[..5] == "/etc/" by {
        assert p[0] == '/' && p[1] == 'e' && p[2] == 't' && p[3] == 'c' && p[4] == '/';
      }
      Mismatch(s, IgnoredFiles[19], 5);
    } else if i == 20 {
      Mismatch(s, IgnoredFiles[20], 5);
    } else if i == 21 {
      Mismatch(s, IgnoredFiles[21], 5);
    } else if i == 22 {
      Mismatch(s, IgnoredFiles[22], 5);
    } else if i == 23 {
      Mismatch(s, IgnoredFiles[23], 5);
    }
  }

  lemma HostsNotIgnoredFrom24(i: nat)
    requires 24 <= i < 30
    ensures !GlobMatch("/etc/hosts", IgnoredFiles[i])
  {
    var s := "/etc/hosts";
    if i == 24 {
      Mismatch(s, IgnoredFiles[24], 5);
    } else if i == 25 {
      var p := IgnoredFiles[25];
      assert p[..5] == "/etc/" by {
        assert p[0] == '/' && p[1] == 'e' && p[2] == 't' && p[3] == 'c' && p[4] == '/';
      }
      Mismatch(s, IgnoredFiles[25], 5);
    } else if i == 26 {
      Mismatch(s, IgnoredFiles[26], 5);
    } else if i == 27 {
      Mismatch(s, IgnoredFiles[27], 5);
    } else if i == 28 {
      Mismatch(s, IgnoredFiles[28], 5);
    } else if i == 29 {
      Mismatch(s, IgnoredFiles[29], 5);
    }
  }

  lemma HostsNotIgnoredFrom30(i: nat)
    requires 30 <= i < 33
    ensures !GlobMatch("/etc/hosts", IgnoredFiles[i])
  {
    var s := "/etc/hosts";
    if i == 30 {
      Mismatch(s, IgnoredFiles[30], 5);
    } else if i == 31 {
      Mismatch(s, IgnoredFiles[31], 5);
    } else if i == 32 {
      Mismatch(s, IgnoredFiles[32], 1);
    }
  }

  // ---------------------------------------------------------------- listings

  datatype FileType = File | FileSymlink | DirSymlink | BrokenSymlink

  /** The key `get_files` stores each listing under. */
  function KindKey(t: FileType): string
  {
    match t
    case File => "file"
    case FileSymlink => "file_symlink"
    case DirSymlink => "dir_symlink"
    case BrokenSymlink => "broken_symlink"
  }

  const Folders: string := "/boot /etc /opt /usr"
  const Md5Suffix: string := " | xargs md5sum"
  const ReadlinkSuffix: string := " -exec readlink -n {} \\; -exec echo -n '  ' \\; -print"

  function FindType(t: FileType): string
  {
    match t
    case File => "-type f"
    case FileSymlink => "-type l -xtype f"
    case DirSymlink => "-type l -xtype d"
    case BrokenSymlink => "-xtype l"
  }

  predicate EndsWith(s: string, suffix: string)
  {
    |suffix| <= |s| && s[|s| - |suffix|..] == suffix
  }

  /** A string ending with `suffix` ends with the last character of `suffix`. */
  lemma EndsWithLast(s: string, suffix: string)
    requires suffix != []
    ensures EndsWith(s, suffix) ==> s[|s| - 1] == suffix[|suffix| - 1]
  {
    if EndsWith(s, suffix) {
      assert s[|s| - 1] == s[|s| - |suffix|..][|suffix| - 1];
    }
  }

  /** The remote command of `ssh_get_files`: md5 sums for files and symlinks to files, link targets for the others. */
  function FindCommand(t: FileType): (cmd: string)
    ensures (t.File? || t.FileSymlink?) <==> EndsWith(cmd, Md5Suffix)
    ensures (t.DirSymlink? || t.BrokenSymlink?) <==> EndsWith(cmd, ReadlinkSuffix)
  {
    var find := "find " + Folders + " " + FindType(t);
    var suffix := if t.DirSymlink? || t.BrokenSymlink? then ReadlinkSuffix else Md5Suffix;
    var cmd := find + suffix;
    assert cmd[|cmd| - |suffix|..] == suffix;
    assert Md5Suffix[|Md5Suffix| - 1] != ReadlinkSuffix[|ReadlinkSuffix| - 1];
    EndsWithLast(cmd, Md5Suffix);
    EndsWithLast(cmd, ReadlinkSuffix);
    EndsWithLast(cmd, suffix);
    cmd
  }

  /** A Python dict with string keys: its values and its keys in insertion order. */
  datatype Dict<V> = Dict(keys: seq<string>, vals: map<string, V>)

  ghost predicate Ordered<V>(d: Dict<V>)
  {
    (forall i, j :: 0 <= i < j < |d.keys| ==> d.keys[i] != d.keys[j])
    && (forall k :: k in d.vals <==> k in d.keys)
  }

  /** `d[k] = v`: a new key goes last, an existing key keeps its place. */
  function Put<V>(d: Dict<V>, k: string, v: V): (r: Dict<V>)
    ensures r.vals == d.vals[k := v]
    ensures Ordered(d) ==> Ordered(r)
    ensures k in d.vals ==> r.keys == d.keys
    ensures k !in d.vals ==> r.keys == d.keys + [k]
  {
    if k in d.vals then Dict(d.keys, d.vals[k := v]) else Dict(d.keys + [k], d.vals[k := v])
  }

  /** One listing line: its second whitespace-separated token is the path, its first the md5 sum or target. */
  function Entry(line: string): (e: Option<(string, string)>)
    ensures e.Some? <==> |Text.Words(line)| >= 2
  {
    var words := Text.Words(line);
    if |words| < 2 then None else Some((words[1], words[0]))
  }

  /** The parse loop of `ssh_get_files` from `acc` over `lines`; a line with fewer than two tokens raises. */
  function ListingFrom(acc: Dict<string>, lines: seq<string>): (r: Result<Dict<string>>)
    ensures r.Err? <==> exists i :: 0 <= i < |lines| && Entry(lines[i]).None?
    ensures r.Err? ==> r.msg == "IndexError: list index out of range"
    ensures r.Ok? && Ordered(acc) ==> Ordered(r.value)
    decreases |lines|
  {
    if lines == [] then Ok(acc)
    else
      assert forall i :: 1 <= i < |lines| ==> lines[1..][i - 1] == lines[i];
      match Entry(lines[0])
      case None => Err("IndexError: list index out of range")
      case Some(e) => ListingFrom(Put(acc, e.0, e.1), lines[1..])
  }

  /** `ssh_get_files` on the command's output. */
  method ParseListing(raw: string) returns (r: Result<Dict<string>>)
    ensures r == ListingFrom(Dict([], map[]), Text.SplitLines(raw))
  {
    var lines := Text.SplitLines(raw);
    var res: Dict<string> := Dict([], map[]);
    var i := 0;
    while i < |lines|
      invariant 0 <= i <= |lines|
      invariant ListingFrom(Dict([], map[]), lines) == ListingFrom(res, lines[i..])
    {
      assert lines[i..][1..] == lines[i + 1..];
      var entry := Text.Words(lines[i]);
      if |entry| < 2 {
        return Err("IndexError: list index out of range");
      }
      res := Put(res, entry[1], entry[0]);
      i := i + 1;
    }
    r := Ok(res);
  }

  /** The value the last line naming `path` gives it, if any line does: an independent reading of the listing. */
  function LastValue(lines: seq<string>, path: string): Option<string>
  {
    if lines == [] then None
    else match LastValue(lines[1..], path)
      case Some(v) => Some(v)
      case None =>
        var e := Entry(lines[0]);
        if e.Some? && e.value.0 == path then Some(e.value.1) else None
  }

  /**
    A later line for the same path overwrites: a path's value is the first token
    of the last line naming it, and a path no line names keeps its value in `acc`.
  */
  lemma {:induction false} ListingLastWins(acc: Dict<string>, lines: seq<string>, path: string)
    requires ListingFrom(acc, lines).Ok?
    ensures var r := ListingFrom(acc, lines).value;
            && (path in r.vals <==> path in acc.vals || LastValue(lines, path).Some?)
            && (LastValue(lines, path).Some? ==> r.vals[path] == LastValue(lines, path).value)
            && (LastValue(lines, path).None? && path in acc.vals ==> r.vals[path] == acc.vals[path])
    decreases |lines|
  {
    if lines != [] {
      var e := Entry(lines[0]).value;
      var acc1 := Put(acc, e.0, e.1);
      assert ListingFrom(acc, lines) == ListingFrom(acc1, lines[1..]);
      ListingLastWins(acc1, lines[1..], path);
    }
  }

  // ---------------------------------------------------------------- get_files

  /** `ssh_get_files` for one kind, from the remote command's output or the exception `ssh_cmd` raised. */
  function Listing(raw: Result<string>): (r: Result<Dict<string>>)
    ensures r.Ok? ==> Ordered(r.value) && ListingKeys(r.value)
  {
    match raw
    case Err(e) => Err(e)
    case Ok(out) => ListingFrom(Dict([], map[]), Text.SplitLines(out))
  }

  /**
    `get_files(host)` from what the remote command gives for each kind: the four
    listings under "file", "file_symlink", "dir_symlink" and "broken_symlink", in
    that order, or the first exception (after which the script exits with -1).
  */
  function GetFiles(raw: FileType -> Result<string>): (r: Result<Dict<Dict<string>>>)
    ensures r.Ok? ==> r.value.keys == [KindKey(File), KindKey(FileSymlink), KindKey(DirSymlink), KindKey(BrokenSymlink)]
    ensures r.Ok? ==> TestListings(r.value)
  {
    var file :- Listing(raw(File));
    var fileSymlink :- Listing(raw(FileSymlink));
    var dirSymlink :- Listing(raw(DirSymlink));
    var brokenSymlink :- Listing(raw(BrokenSymlink));
    Ok(Dict([KindKey(File), KindKey(FileSymlink), KindKey(DirSymlink), KindKey(BrokenSymlink)],
            map[KindKey(File) := file, KindKey(FileSymlink) := fileSymlink,
                KindKey(DirSymlink) := dirSymlink, KindKey(BrokenSymlink) := brokenSymlink]))
  }

  /** `get_files` succeeds exactly when listing every kind succeeds. */
  lemma GetFilesFails(raw: FileType -> Result<string>)
    ensures GetFiles(raw).Ok? <==> Listing(raw(File)).Ok? && Listing(raw(FileSymlink)).Ok?
                                   && Listing(raw(DirSymlink)).Ok? && Listing(raw(BrokenSymlink)).Ok?
  {
  }

  /** On success `get_files` stores each kind's listing under that kind's key. */
  lemma GetFilesStores(raw: FileType -> Result<string>, t: FileType)
    requires GetFiles(raw).Ok?
    ensures KindKey(t) in GetFiles(raw).value.vals && Listing(raw(t)) == Ok(GetFiles(raw).value.vals[KindKey(t)])
  {
    GetFilesFails(raw);
    var files := GetFiles(raw).value;
    assert files.vals == map[KindKey(File) := Listing(raw(File)).value, KindKey(FileSymlink) := Listing(raw(FileSymlink)).value,
                             KindKey(DirSymlink) := Listing(raw(DirSymlink)).value,
                             KindKey(BrokenSymlink) := Listing(raw(BrokenSymlink)).value];
  }

  // ---------------------------------------------------------------- the comparison

  datatype Msg = NotOnReference(ftype: string, path: string) | Differs(ftype: string, path: string)
               | NotOnTested(ftype: string, path: string)

  /** The line `compare_files` prints for a message. */
  function MsgText(m: Msg): string
  {
    match m
    case NotOnReference(t, p) => t + " doesn't exist on reference host: " + p
    case Differs(t, p) => t + " differs: " + p
    case NotOnTested(t, p) => t + " doesn't exist on tested host: " + p
  }

  type Tables = map<string, Dict<Option<string>>>

  /** The reference tables and printed messages so far, and the exception that stopped the comparison, if any. */
  datatype Outcome = Outcome(tables: Tables, out: seq<Msg>, err: Option<string>)

  ghost predicate ListingKeys<V>(d: Dict<V>)
  {
    forall i :: 0 <= i < |d.keys| ==> d.keys[i] in d.vals
  }

  /** Every kind the tested host lists is a listing whose keys all have values. */
  ghost predicate TestListings(test: Dict<Dict<string>>)
  {
    forall i :: 0 <= i < |test.keys| ==> test.keys[i] in test.vals && ListingKeys(test.vals[test.keys[i]])
  }

  /** `path` of kind `ftype` is in the reference and its value is None. */
  ghost predicate DoneWith(tables: Tables, ftype: string, path: string)
  {
    ftype in tables && path in tables[ftype].vals && tables[ftype].vals[path].None?
  }

  /**
    How pass one may change the tables: same kinds, same keys in the same order,
    and a value either stays or becomes None.
  */
  ghost predicate Keep(before: Tables, after: Tables)
  {
    before.Keys == after.Keys
    && forall t :: t in before ==>
         after[t].keys == before[t].keys && after[t].vals.Keys == before[t].vals.Keys
         && forall p :: p in before[t].vals ==> after[t].vals[p] == before[t].vals[p] || after[t].vals[p].None?
  }

  lemma KeepTrans(a: Tables, b: Tables, c: Tables)
    requires Keep(a, b) && Keep(b, c)
    ensures Keep(a, c)
  {
  }

  /** The messages from `from` on are about paths `pats` does not ignore, and none is from pass two. */
  ghost predicate PassOneMsgs(pats: seq<string>, msgs: seq<Msg>, from: nat)
  {
    forall i :: from <= i < |msgs| ==> !AnyMatch(msgs[i].path, pats) && !msgs[i].NotOnTested?
  }

  /** Every differing path reported from `from` on has been marked. */
  ghost predicate DiffersMarked(tables: Tables, msgs: seq<Msg>, from: nat)
  {
    forall i :: from <= i < |msgs| && msgs[i].Differs? ==> DoneWith(tables, msgs[i].ftype, msgs[i].path)
  }

  /**
    Pass one on one tested path `p` of kind `ftype` with value `v`: an ignored path
    is skipped; a kind the reference lacks raises KeyError; a path the reference
    lacks is reported; otherwise a different value is reported and the reference
    value is set to None, differing or not.
  */
  function MarkOne(pats: seq<string>, tables: Tables, out: seq<Msg>, ftype: string, p: string, v: string): (r: Outcome)
    ensures |out| <= |r.out| <= |out| + 1 && r.out[..|out|] == out
    ensures |r.out| > |out| ==> r.out[|out|].ftype == ftype && r.out[|out|].path == p && !AnyMatch(p, pats)
                                && !r.out[|out|].NotOnTested?
    ensures |r.out| > |out| && r.out[|out|].Differs? ==> DoneWith(r.tables, ftype, p)
    ensures r.err.Some? <==> ftype !in tables && !AnyMatch(p, pats)
    ensures Keep(tables, r.tables)
    ensures forall t :: t in tables && t != ftype ==> r.tables[t] == tables[t]
    ensures ftype in tables ==>
              forall q :: q in tables[ftype].vals && q != p ==> r.tables[ftype].vals[q] == tables[ftype].vals[q]
    ensures ftype in tables && p in tables[ftype].vals && !AnyMatch(p, pats) ==> DoneWith(r.tables, ftype, p)
  {
    if AnyMatch(p, pats) then Outcome(tables, out, None)
    else if ftype !in tables then Outcome(tables, out, Some("KeyError: " + Text.Repr(ftype)))
    else if p !in tables[ftype].vals then Outcome(tables, out + [NotOnReference(ftype, p)], None)
    else
      var out1 := if tables[ftype].vals[p] != Some(v) then out + [Differs(ftype, p)] else out;
      Outcome(tables[ftype := Dict(tables[ftype].keys, tables[ftype].vals[p := None])], out1, None)
  }

  /** Pass one over the remaining `paths` of one kind of the tested listing `vals`, stopping at an exception. */
  function MarkPaths(pats: seq<string>, tables: Tables, out: seq<Msg>, ftype: string, paths: seq<string>,
                     vals: map<string, string>): (r: Outcome)
    requires forall i :: 0 <= i < |paths| ==> paths[i] in vals
    ensures |out| <= |r.out| && r.out[..|out|] == out
    ensures r.tables.Keys == tables.Keys
    decreases |paths|
  {
    if paths == [] then Outcome(tables, out, None)
    else
      var o := MarkOne(pats, tables, out, ftype, paths[0], vals[paths[0]]);
      if o.err.Some? then o
      else
        assert forall i :: 1 <= i < |paths| ==> paths[1..][i - 1] == paths[i];
        var r := MarkPaths(pats, o.tables, o.out, ftype, paths[1..], vals);
        assert r.out[..|out|] == r.out[..|o.out|][..|out|];
        r
  }

  /** A value that is None stays None under `Keep`. */
  lemma KeepDone(before: Tables, after: Tables, msgs: seq<Msg>, from: nat)
    requires Keep(before, after) && DiffersMarked(before, msgs, from)
    ensures DiffersMarked(after, msgs, from)
  {
  }

  /**
    What pass one guarantees from `before` and the messages `out` to `after`: it
    only sets reference values to None, every message it prints is about a path
    that is not ignored, and each path reported as differing ends marked.
  */
  ghost predicate PassOneSound(pats: seq<string>, before: Tables, out: seq<Msg>, after: Outcome)
  {
    |out| <= |after.out| && after.out[..|out|] == out
    && Keep(before, after.tables) && PassOneMsgs(pats, after.out, |out|) && DiffersMarked(after.tables, after.out, |out|)
  }

  /** Two stretches of pass one make one. */
  lemma PassOneSoundTrans(pats: seq<string>, t: Tables, out: seq<Msg>, mid: Outcome, last: Outcome)
    requires PassOneSound(pats, t, out, mid) && PassOneSound(pats, mid.tables, mid.out, last)
    ensures PassOneSound(pats, t, out, last)
  {
    KeepTrans(t, mid.tables, last.tables);
    KeepDone(mid.tables, last.tables, mid.out, |out|);
    assert forall i :: |out| <= i < |mid.out| ==> last.out[i] == last.out[..|mid.out|][i];
    assert last.out[..|out|] == last.out[..|mid.out|][..|out|];
  }

  /** Pass one over a kind keeps `PassOneSound`. */
  lemma {:induction false} MarkPathsSound(pats: seq<string>, tables: Tables, out: seq<Msg>, ftype: string,
                                          paths: seq<string>, vals: map<string, string>)
    requires forall i :: 0 <= i < |paths| ==> paths[i] in vals
    ensures PassOneSound(pats, tables, out, MarkPaths(pats, tables, out, ftype, paths, vals))
    decreases |paths|
  {
    if paths != [] {
      var o := MarkOne(pats, tables, out, ftype, paths[0], vals[paths[0]]);
      assert PassOneSound(pats, tables, out, o);
      if o.err.None? {
        assert forall i :: 1 <= i < |paths| ==> paths[1..][i - 1] == paths[i];
        MarkPathsSound(pats, o.tables, o.out, ftype, paths[1..], vals);
        PassOneSoundTrans(pats, tables, out, o, MarkPaths(pats, o.tables, o.out, ftype, paths[1..], vals));
      }
    }
  }

  /** Pass one stops with KeyError exactly when the kind is not in the reference and some path is not ignored. */
  lemma {:induction false} MarkPathsFails(pats: seq<string>, tables: Tables, out: seq<Msg>, ftype: string,
                                          paths: seq<string>, vals: map<string, string>)
    requires forall i :: 0 <= i < |paths| ==> paths[i] in vals
    ensures MarkPaths(pats, tables, out, ftype, paths, vals).err.Some? <==>
              ftype !in tables && exists i :: 0 <= i < |paths| && !AnyMatch(paths[i], pats)
    decreases |paths|
  {
    if paths != [] {
      var o := MarkOne(pats, tables, out, ftype, paths[0], vals[paths[0]]);
      assert forall i :: 1 <= i < |paths| ==> paths[1..][i - 1] == paths[i];
      if o.err.None? {
        MarkPathsFails(pats, o.tables, o.out, ftype, paths[1..], vals);
      }
    }
  }

  /**
    For a kind the reference has, pass one sets to None exactly the reference
    entries of the non-ignored tested paths; every other entry keeps its value.
  */
  lemma {:induction false} MarkPathsMarks(pats: seq<string>, tables: Tables, out: seq<Msg>, ftype: string,
                                          paths: seq<string>, vals: map<string, string>, q: string)
    requires forall i :: 0 <= i < |paths| ==> paths[i] in vals
    requires ftype in tables && q in tables[ftype].vals
    ensures var r := MarkPaths(pats, tables, out, ftype, paths, vals);
            && ftype in r.tables && q in r.tables[ftype].vals
            && (q in paths && !AnyMatch(q, pats) ==> r.tables[ftype].vals[q].None?)
            && (q !in paths || AnyMatch(q, pats) ==> r.tables[ftype].vals[q] == tables[ftype].vals[q])
    decreases |paths|
  {
    if paths != [] {
      var o := MarkOne(pats, tables, out, ftype, paths[0], vals[paths[0]]);
      assert forall i :: 1 <= i < |paths| ==> paths[1..][i - 1] == paths[i];
      assert forall x :: x in paths <==> x == paths[0] || x in paths[1..];
      MarkPathsSound(pats, o.tables, o.out, ftype, paths[1..], vals);
      MarkPathsMarks(pats, o.tables, o.out, ftype, paths[1..], vals, q);
    }
  }

  /** Pass one prints something about a path only while processing that path. */
  lemma {:induction false} MarkPathsOthers(pats: seq<string>, tables: Tables, out: seq<Msg>, ftype: string,
                                           paths: seq<string>, vals: map<string, string>, q: string)
    requires forall i :: 0 <= i < |paths| ==> paths[i] in vals
    requires q !in paths
    ensures var r := MarkPaths(pats, tables, out, ftype, paths, vals);
            forall i :: |out| <= i < |r.out| ==> r.out[i].path != q
    decreases |paths|
  {
    if paths != [] {
      var o := MarkOne(pats, tables, out, ftype, paths[0], vals[paths[0]]);
      if o.err.None? {
        assert forall i :: 1 <= i < |paths| ==> paths[1..][i - 1] == paths[i];
        assert paths[0] in paths && q !in paths[1..];
        MarkPathsOthers(pats, o.tables, o.out, ftype, paths[1..], vals, q);
        var r := MarkPaths(pats, o.tables, o.out, ftype, paths[1..], vals);
        assert forall j :: |o.out| <= j < |MarkPaths(pats, o.tables, o.out, ftype, paths[1..], vals).out| ==>
                             MarkPaths(pats, o.tables, o.out, ftype, paths[1..], vals).out[j].path != q;
        assert r == MarkPaths(pats, tables, out, ftype, paths, vals);
        assert paths[0] != q;
        forall i | |out| <= i < |r.out| ensures r.out[i].path != q {
          if i < |o.out| {
            assert i == |out|;
            assert r.out[i] == r.out[..|o.out|][i];
            assert o.out[i].path == paths[0];
            assert r.out[i].path == paths[0];
          }
        }
      }
    }
  }

  /** The messages a run appends after a prefix of messages it kept. */
  lemma FreshSplit(a: seq<Msg>, b: seq<Msg>, c: seq<Msg>)
    requires |a| <= |b| <= |c| && b[..|a|] == a && c[..|b|] == b
    ensures c[|a|..] == b[|a|..] + c[|b|..]
  {
  }

  /** No message from `from` on is about `q`. */
  lemma NotAbout(msgs: seq<Msg>, from: nat, ftype: string, q: string)
    requires from <= |msgs|
    requires forall i :: from <= i < |msgs| ==> msgs[i].path != q
    ensures NotOnReference(ftype, q) !in msgs[from..] && Differs(ftype, q) !in msgs[from..]
  {
  }

  /** The messages pass one prints about the first of its paths. */
  lemma {:induction false} MarkPathsMessagesHead(pats: seq<string>, tables: Tables, out: seq<Msg>, ftype: string,
                                                 paths: seq<string>, vals: map<string, string>)
    requires forall i :: 0 <= i < |paths| ==> paths[i] in vals
    requires paths != [] && paths[0] !in paths[1..]
    requires ftype in tables && !AnyMatch(paths[0], pats)
    ensures var r := MarkPaths(pats, tables, out, ftype, paths, vals);
            var q := paths[0];
            && (NotOnReference(ftype, q) in r.out[|out|..] <==> q !in tables[ftype].vals)
            && (Differs(ftype, q) in r.out[|out|..] <==> q in tables[ftype].vals && tables[ftype].vals[q] != Some(vals[q]))
  {
    var q := paths[0];
    var o := MarkOne(pats, tables, out, ftype, q, vals[q]);
    assert forall i :: 1 <= i < |paths| ==> paths[1..][i - 1] == paths[i];
    MarkPathsOthers(pats, o.tables, o.out, ftype, paths[1..], vals, q);
    assert forall j :: |o.out| <= j < |MarkPaths(pats, o.tables, o.out, ftype, paths[1..], vals).out| ==>
                         MarkPaths(pats, o.tables, o.out, ftype, paths[1..], vals).out[j].path != q;
    var r := MarkPaths(pats, o.tables, o.out, ftype, paths[1..], vals);
    assert r == MarkPaths(pats, tables, out, ftype, paths, vals);
    FreshSplit(out, o.out, r.out);
    NotAbout(r.out, |o.out|, ftype, q);
    assert o.out[|out|..] == if q !in tables[ftype].vals then [NotOnReference(ftype, q)]
                             else if tables[ftype].vals[q] != Some(vals[q]) then [Differs(ftype, q)] else [];
  }

  /**
    For distinct tested paths of a kind the reference has, a non-ignored path is
    reported as missing from the reference exactly when it is, and as differing
    exactly when its reference value (before the comparison) is another value;
    an equal value gives no message.
  */
  lemma {:induction false} MarkPathsMessages(pats: seq<string>, tables: Tables, out: seq<Msg>, ftype: string,
                                             paths: seq<string>, vals: map<string, string>, q: string)
    requires forall i :: 0 <= i < |paths| ==> paths[i] in vals
    requires forall i, j :: 0 <= i < j < |paths| ==> paths[i] != paths[j]
    requires ftype in tables && q in paths && !AnyMatch(q, pats)
    ensures var r := MarkPaths(pats, tables, out, ftype, paths, vals);
            && (NotOnReference(ftype, q) in r.out[|out|..] <==> q !in tables[ftype].vals)
            && (Differs(ftype, q) in r.out[|out|..] <==> q in tables[ftype].vals && tables[ftype].vals[q] != Some(vals[q]))
    decreases |paths|
  {
    assert forall i :: 1 <= i < |paths| ==> paths[1..][i - 1] == paths[i];
    if paths[0] == q {
      MarkPathsMessagesHead(pats, tables, out, ftype, paths, vals);
    } else {
      var o := MarkOne(pats, tables, out, ftype, paths[0], vals[paths[0]]);
      var r := MarkPaths(pats, o.tables, o.out, ftype, paths[1..], vals);
      assert r == MarkPaths(pats, tables, out, ftype, paths, vals);
      FreshSplit(out, o.out, r.out);
      NotAbout(o.out, |out|, ftype, q);
      MarkPathsMessages(pats, o.tables, o.out, ftype, paths[1..], vals, q);
    }
  }

  /** Pass one over the remaining kinds of the tested host, in its order. */
  function MarkKinds(pats: seq<string>, tables: Tables, out: seq<Msg>, kinds: seq<string>,
                     test: map<string, Dict<string>>): (r: Outcome)
    requires forall i :: 0 <= i < |kinds| ==> kinds[i] in test && ListingKeys(test[kinds[i]])
    ensures |out| <= |r.out| && r.out[..|out|] == out
    ensures r.tables.Keys == tables.Keys
    decreases |kinds|
  {
    if kinds == [] then Outcome(tables, out, None)
    else
      var listing := test[kinds[0]];
      assert ListingKeys(listing);
      var o := MarkPaths(pats, tables, out, kinds[0], listing.keys, listing.vals);
      if o.err.Some? then o
      else
        assert forall i :: 1 <= i < |kinds| ==> kinds[1..][i - 1] == kinds[i];
        var r := MarkKinds(pats, o.tables, o.out, kinds[1..], test);
        assert r.out[..|out|] == r.out[..|o.out|][..|out|];
        r
  }

  /** Pass one over all kinds keeps `PassOneSound`. */
  lemma {:induction false} MarkKindsSound(pats: seq<string>, tables: Tables, out: seq<Msg>, kinds: seq<string>,
                                          test: map<string, Dict<string>>)
    requires forall i :: 0 <= i < |kinds| ==> kinds[i] in test && ListingKeys(test[kinds[i]])
    ensures PassOneSound(pats, tables, out, MarkKinds(pats, tables, out, kinds, test))
    decreases |kinds|
  {
    if kinds != [] {
      var listing := test[kinds[0]];
      assert ListingKeys(listing);
      MarkPathsSound(pats, tables, out, kinds[0], listing.keys, listing.vals);
      var o := MarkPaths(pats, tables, out, kinds[0], listing.keys, listing.vals);
      if o.err.None? {
        assert forall i :: 1 <= i < |kinds| ==> kinds[1..][i - 1] == kinds[i];
        MarkKindsSound(pats, o.tables, o.out, kinds[1..], test);
        PassOneSoundTrans(pats, tables, out, o, MarkKinds(pats, o.tables, o.out, kinds[1..], test));
      }
    } else {
      assert PassOneSound(pats, tables, out, Outcome(tables, out, None));
    }
  }

  /** Pass two over the remaining `paths` of one reference kind: non-ignored entries still holding a value are reported. */
  function Leftover(pats: seq<string>, ftype: string, paths: seq<string>, vals: map<string, Option<string>>): (r: seq<Msg>)
    ensures forall m :: m in r <==> m.NotOnTested? && m.ftype == ftype && m.path in paths && m.path in vals
                                    && !AnyMatch(m.path, pats) && vals[m.path].Some?
    decreases |paths|
  {
    if paths == [] then []
    else
      var p := paths[0];
      var rest := Leftover(pats, ftype, paths[1..], vals);
      assert forall q :: q in paths <==> q == p || q in paths[1..];
      if AnyMatch(p, pats) || p !in vals || vals[p].None? then rest else [NotOnTested(ftype, p)] + rest
  }

  /** One step of `Leftover`: the first path's report, if any, then the rest. */
  lemma LeftoverHead(pats: seq<string>, ftype: string, paths: seq<string>, vals: map<string, Option<string>>)
    requires paths != []
    ensures var p := paths[0];
            Leftover(pats, ftype, paths, vals)
            == (if AnyMatch(p, pats) || p !in vals || vals[p].None? then [] else [NotOnTested(ftype, p)])
               + Leftover(pats, ftype, paths[1..], vals)
  {
  }

  /** Pass two over the remaining reference kinds. */
  function LeftoverKinds(pats: seq<string>, tables: Tables, kinds: seq<string>): (r: seq<Msg>)
    requires forall i :: 0 <= i < |kinds| ==> kinds[i] in tables
    ensures forall m :: m in r <==> m.NotOnTested? && m.ftype in kinds && m.path in tables[m.ftype].keys
                                    && m.path in tables[m.ftype].vals
                                    && !AnyMatch(m.path, pats) && tables[m.ftype].vals[m.path].Some?
    decreases |kinds|
  {
    if kinds == [] then []
    else
      assert forall i :: 1 <= i < |kinds| ==> kinds[1..][i - 1] == kinds[i];
      assert forall t :: t in kinds <==> t == kinds[0] || t in kinds[1..];
      Leftover(pats, kinds[0], tables[kinds[0]].keys, tables[kinds[0]].vals) + LeftoverKinds(pats, tables, kinds[1..])
  }

  /**
    `compare_files` as a function of the ignore patterns, the reference (its kinds
    in order and its tables) and the tested listings: pass one, then, unless it
    raised, pass two over the marked reference.
  */
  function Compare(pats: seq<string>, kinds: seq<string>, tables: Tables, test: Dict<Dict<string>>): Outcome
    requires TestListings(test)
    requires forall i :: 0 <= i < |kinds| ==> kinds[i] in tables
  {
    var o := MarkKinds(pats, tables, [], test.keys, test.vals);
    if o.err.Some? then o else o.(out := o.out + LeftoverKinds(pats, o.tables, kinds))
  }

  /**
    No message is about an ignored path, and no path is reported both as differing
    and as missing on the tested host.
  */
  lemma CompareSound(pats: seq<string>, kinds: seq<string>, tables: Tables, test: Dict<Dict<string>>)
    requires TestListings(test)
    requires forall i :: 0 <= i < |kinds| ==> kinds[i] in tables
    ensures forall m :: m in Compare(pats, kinds, tables, test).out ==> !AnyMatch(m.path, pats)
    ensures forall t, p :: !(Differs(t, p) in Compare(pats, kinds, tables, test).out
                             && NotOnTested(t, p) in Compare(pats, kinds, tables, test).out)
  {
    MarkKindsSound(pats, tables, [], test.keys, test.vals);
    var o := MarkKinds(pats, tables, [], test.keys, test.vals);
    assert forall m :: m in o.out ==> !AnyMatch(m.path, pats) && !m.NotOnTested?;
    assert forall t, p :: Differs(t, p) in o.out ==> DoneWith(o.tables, t, p);
    if o.err.None? {
      var left := LeftoverKinds(pats, o.tables, kinds);
      assert forall m :: m in o.out + left <==> m in o.out || m in left;
    }
  }

  /** A reference entry of a kind the tested host does not list is reported, unless ignored or pass one raised. */
  lemma UntestedKindReported(pats: seq<string>, kinds: seq<string>, tables: Tables, test: Dict<Dict<string>>,
                             t: string, p: string)
    requires TestListings(test)
    requires forall i :: 0 <= i < |kinds| ==> kinds[i] in tables
    requires t !in test.keys && t in kinds && p in tables[t].keys && p in tables[t].vals && tables[t].vals[p].Some?
    requires !AnyMatch(p, pats)
    requires MarkKinds(pats, tables, [], test.keys, test.vals).err.None?
    ensures NotOnTested(t, p) in Compare(pats, kinds, tables, test).out
  {
    MarkKindsUntouched(pats, tables, [], test.keys, test.vals, t);
    var o := MarkKinds(pats, tables, [], test.keys, test.vals);
    assert NotOnTested(t, p) in LeftoverKinds(pats, o.tables, kinds);
  }

  /** Pass one leaves the reference table of a kind the tested host does not list as it was. */
  lemma {:induction false} MarkKindsUntouched(pats: seq<string>, tables: Tables, out: seq<Msg>, kinds: seq<string>,
                                              test: map<string, Dict<string>>, t: string)
    requires forall i :: 0 <= i < |kinds| ==> kinds[i] in test && ListingKeys(test[kinds[i]])
    requires t in tables && t !in kinds
    ensures MarkKinds(pats, tables, out, kinds, test).tables[t] == tables[t]
    decreases |kinds|
  {
    if kinds != [] {
      var listing := test[kinds[0]];
      assert ListingKeys(listing);
      MarkPathsUntouched(pats, tables, out, kinds[0], listing.keys, listing.vals, t);
      var o := MarkPaths(pats, tables, out, kinds[0], listing.keys, listing.vals);
      if o.err.None? {
        assert forall i :: 1 <= i < |kinds| ==> kinds[1..][i - 1] == kinds[i];
        MarkKindsUntouched(pats, o.tables, o.out, kinds[1..], test, t);
      }
    }
  }

  /** Pass one over kind `ftype` leaves every other kind's table as it was. */
  lemma {:induction false} MarkPathsUntouched(pats: seq<string>, tables: Tables, out: seq<Msg>, ftype: string,
                                              paths: seq<string>, vals: map<string, string>, t: string)
    requires forall i :: 0 <= i < |paths| ==> paths[i] in vals
    requires t in tables && t != ftype
    ensures MarkPaths(pats, tables, out, ftype, paths, vals).tables[t] == tables[t]
    decreases |paths|
  {
    if paths != [] {
      var o := MarkOne(pats, tables, out, ftype, paths[0], vals[paths[0]]);
      if o.err.None? {
        assert forall i :: 1 <= i < |paths| ==> paths[1..][i - 1] == paths[i];
        MarkPathsUntouched(pats, o.tables, o.out, ftype, paths[1..], vals, t);
      }
    }
  }

  /** The reference listings, marked in place by `compare_files`. */
  class Reference {
    const kinds: seq<string>
    const patterns: seq<string>
    var tables: Tables

    ghost predicate Valid()
      reads this
    {
      forall i :: 0 <= i < |kinds| ==> kinds[i] in tables
    }

    constructor (kinds: seq<string>, tables: Tables)
      requires forall i :: 0 <= i < |kinds| ==> kinds[i] in tables
      ensures this.kinds == kinds && this.tables == tables && patterns == IgnoredFiles && Valid()
    {
      this.kinds := kinds;
      this.tables := tables;
      this.patterns := IgnoredFiles;
    }

    /** The body of pass one's inner loop for one tested path. */
    method MarkPath(ftype: string, p: string, v: string, out: seq<Msg>) returns (out': seq<Msg>, err: Option<string>)
      modifies this
      ensures Outcome(tables, out', err) == MarkOne(patterns, old(tables), out, ftype, p, v)
    {
      out', err := out, None;
      if AnyMatch(p, patterns) {
        return;
      }
      if ftype !in tables {
        err := Some("KeyError: " + Text.Repr(ftype));
        return;
      }
      if p !in tables[ftype].vals {
        out' := out + [NotOnReference(ftype, p)];
        return;
      }
      if tables[ftype].vals[p] != Some(v) {
        out' := out + [Differs(ftype, p)];
      }
      tables := tables[ftype := Dict(tables[ftype].keys, tables[ftype].vals[p := None])];
    }

    /** Pass one's inner loop over the paths of one tested kind. */
    method MarkListing(ftype: string, listing: Dict<string>, out: seq<Msg>) returns (out': seq<Msg>, err: Option<string>)
      requires ListingKeys(listing)
      modifies this
      ensures Outcome(tables, out', err) == MarkPaths(patterns, old(tables), out, ftype, listing.keys, listing.vals)
    {
      out', err := out, None;
      var i := 0;
      while i < |listing.keys|
        invariant 0 <= i <= |listing.keys|
        invariant err.None?
        invariant MarkPaths(patterns, old(tables), out, ftype, listing.keys, listing.vals)
                  == MarkPaths(patterns, tables, out', ftype, listing.keys[i..], listing.vals)
      {
        assert listing.keys[i..][1..] == listing.keys[i + 1..];
        var p := listing.keys[i];
        ghost var t0, o0 := tables, out';
        out', err := MarkPath(ftype, p, listing.vals[p], out');
        assert MarkPaths(patterns, t0, o0, ftype, listing.keys[i..], listing.vals)
               == if err.Some? then Outcome(tables, out', err)
                  else MarkPaths(patterns, tables, out', ftype, listing.keys[i + 1..], listing.vals);
        if err.Some? {
          return;
        }
        i := i + 1;
      }
    }

    /** Pass one: the tested kinds in order. */
    method PassOne(test: Dict<Dict<string>>) returns (out: seq<Msg>, err: Option<string>)
      requires TestListings(test)
      modifies this
      ensures Outcome(tables, out, err) == MarkKinds(patterns, old(tables), [], test.keys, test.vals)
    {
      out, err := [], None;
      var k := 0;
      while k < |test.keys|
        invariant 0 <= k <= |test.keys|
        invariant err.None?
        invariant MarkKinds(patterns, old(tables), [], test.keys, test.vals)
                  == MarkKinds(patterns, tables, out, test.keys[k..], test.vals)
      {
        assert test.keys[k..][1..] == test.keys[k + 1..];
        var ftype := test.keys[k];
        assert ListingKeys(test.vals[ftype]);
        ghost var t0, o0 := tables, out;
        out, err := MarkListing(ftype, test.vals[ftype], out);
        assert MarkKinds(patterns, t0, o0, test.keys[k..], test.vals)
               == if err.Some? then Outcome(tables, out, err)
                  else MarkKinds(patterns, tables, out, test.keys[k + 1..], test.vals);
        if err.Some? {
          return;
        }
        k := k + 1;
      }
    }

    /** Pass two's inner loop: the entries of one reference kind still holding a value. */
    method LeftoverOf(ftype: string) returns (msgs: seq<Msg>)
      requires ftype in tables
      ensures msgs == Leftover(patterns, ftype, tables[ftype].keys, tables[ftype].vals)
    {
      msgs := [];
      var table := tables[ftype];
      var i := 0;
      while i < |table.keys|
        invariant 0 <= i <= |table.keys|
        invariant Leftover(patterns, ftype, table.keys, table.vals)
                  == msgs + Leftover(patterns, ftype, table.keys[i..], table.vals)
      {
        assert table.keys[i..][1..] == table.keys[i + 1..];
        var p := table.keys[i];
        LeftoverHead(patterns, ftype, table.keys[i..], table.vals);
        if !AnyMatch(p, patterns) && p in table.vals && table.vals[p].Some? {
          msgs := msgs + [NotOnTested(ftype, p)];
        }
        i := i + 1;
      }
    }

    /** Pass two: the reference kinds in order. */
    method PassTwo() returns (msgs: seq<Msg>)
      requires Valid()
      ensures msgs == LeftoverKinds(patterns, tables, kinds)
    {
      msgs := [];
      var j := 0;
      while j < |kinds|
        invariant 0 <= j <= |kinds|
        invariant LeftoverKinds(patterns, tables, kinds) == msgs + LeftoverKinds(patterns, tables, kinds[j..])
      {
        assert kinds[j..][1..] == kinds[j + 1..];
        var more := LeftoverOf(kinds[j]);
        msgs := msgs + more;
        j := j + 1;
      }
    }

    /**
      `compare_files(ref_files, test_files)`: the printed messages, in order, and the
      exception that stopped it; the reference tables end as pass one leaves them.
    */
    method CompareWith(test: Dict<Dict<string>>) returns (out: seq<Msg>, err: Option<string>)
      requires Valid() && TestListings(test)
      modifies this
      ensures Valid()
      ensures Compare(patterns, kinds, old(tables), test) == Outcome(tables, out, err)
    {
      out, err := PassOne(test);
      if err.Some? {
        return;
      }
      var left := PassTwo();
      out := out + left;
    }
  }

  // ---------------------------------------------------------------- main

  /** Where `main` takes the reference listing from: a JSON file, a reference host (saved to a file when asked), or nowhere. */
  datatype RefSource = NoReference | FromFile(path: string) | FromHost(host: string, saveTo: Option<string>)

  /**
    What `main` does with its arguments: it reads the reference first (the file
    is loaded, or the host is listed over SSH and the listing saved when
    `--save-reference` is given), and only then checks for missing parameters.
  */
  datatype Plan = Plan(reference: RefSource, missing: bool)

  /**
    `main`'s steps up to its argument check.  `jsonNull` is whether `json.load`
    returned `None` (a file holding `null`): that is the only loaded value the
    check rejects.  Empty strings are false, but the tested host is only checked
    against None.
  */
  function MainPlan(refHost: Option<string>, testHost: Option<string>, saveRef: Option<string>,
                    loadRef: Option<string>, jsonNull: bool): (r: Plan)
    ensures r.reference.FromFile? <==> loadRef.Some? && loadRef.value != []
    ensures r.reference.FromFile? ==> r.reference.path == loadRef.value
    ensures r.reference.FromHost? <==> (loadRef.None? || loadRef.value == []) && refHost.Some? && refHost.value != []
    ensures r.reference.FromHost? ==>
              r.reference.host == refHost.value
              && r.reference.saveTo == (if saveRef.Some? && saveRef.value != [] then saveRef else None)
    ensures r.missing <==> testHost.None? || r.reference.NoReference? || (r.reference.FromFile? && jsonNull)
  {
    var reference :=
      if loadRef.Some? && loadRef.value != [] then FromFile(loadRef.value)
      else if refHost.Some? && refHost.value != [] then FromHost(refHost.value, if saveRef.Some? && saveRef.value != [] then saveRef else None)
      else NoReference;
    var haveRef := reference.FromHost? || (reference.FromFile? && !jsonNull);
    Plan(reference, !haveRef || testHost.None?)
  }

  /** A reference host is listed, and saved when asked, even when the tested host is missing. */
  lemma SavedWithoutTestHost(refHost: string, saveRef: string, loadRef: Option<string>, jsonNull: bool)
    requires refHost != [] && saveRef != [] && (loadRef.None? || loadRef.value == [])
    ensures MainPlan(Some(refHost), None, Some(saveRef), loadRef, jsonNull) == Plan(FromHost(refHost, Some(saveRef)), true)
  {
  }

  /**
    The value `main` returns: -1 after the missing-parameters check fails, else 0
    once the comparison has run (an exception from listing the tested host or
    from comparing propagates instead).
  */
  function MainStatus(p: Plan): (status: int)
    ensures status == -1 <==> p.missing
    ensures status == 0 <==> !p.missing
  {
    if p.missing then -1 else 0
  }
}
