/**
  lib/host.py: the host handle.  The pure parts are the `xe` command-line
  serialiser, the parser of /etc/xensource-inventory, the cache key of an
  imported image, the yum history parser, the disk filter and the version test
  that picks the UEFI variable store.  The class `Host` holds what the handle
  keeps between calls (the saved yum state) and drives the management plane
  for the cache lookup and `import_vm`.

  Helpers of lib/common.py that are not part of this model (`strip_suffix`,
  `prefix_object_name`) and `shlex.quote` are given functions, bundled in
  `Helpers`.  Remote listings (lsblk, rpm, yum) are inputs.
*/
module HostHandle {
  import opened Wrappers
  import Text
  import LegacyCommon
  import opened ManagementPlane

  /** `strip_suffix(s, suffix)`, `prefix_object_name(name)` and `shlex.quote(s)`, as given functions. */
  datatype Helpers = Helpers(stripSuffix: (string, string) -> string, prefixObjectName: string -> string,
                             quote: string -> string)

  // ---------------------------------------------------------------- xe

  /** A value of the argument dictionary of `xe`: a boolean, a dictionary of sub-keys, or text. */
  datatype XeValue = Flag(b: bool) | SubKeys(items: seq<(string, string)>) | Plain(s: string)

  /** One sub-key item of a dictionary value: "key:subkey=subvalue". */
  function SubKeyItem(key: string, item: (string, string)): (t: string)
    ensures t != []
  {
    key + ":" + item.0 + "=" + item.1
  }

  /** What `stringify`'s loop accumulates for a dictionary value before `rstrip()`: each item followed by a space. */
  function SubKeysText(key: string, items: seq<(string, string)>): string
    decreases |items|
  {
    if items == [] then "" else SubKeyItem(key, items[0]) + " " + SubKeysText(key, items[1..])
  }

  /** The items of a dictionary value, rendered. */
  function ItemTexts(key: string, items: seq<(string, string)>): (ts: seq<string>)
    ensures |ts| == |items|
    decreases |items|
  {
    if items == [] then [] else [SubKeyItem(key, items[0])] + ItemTexts(key, items[1..])
  }

  /** `stringify(key, value)`. */
  function Stringify(key: string, value: XeValue, quote: string -> string): string
  {
    match value
    case Flag(b) => key + "=" + LegacyCommon.ToXapiBool(b)
    case SubKeys(items) => Text.StripRight(SubKeysText(key, items), Text.Whitespace)
    case Plain(s) => key + "=" + quote(s)
  }

  /** The command `xe(action, args, minimal=..., force=...)` runs over SSH. */
  function XeCommand(action: string, args: seq<(string, XeValue)>, minimal: bool, force: bool,
                     quote: string -> string): (line: seq<string>)
    ensures |line| == 2 + (if minimal then 1 else 0) + (if force then 1 else 0) + |args|
  {
    ["xe", action] + (if minimal then ["--minimal"] else []) + (if force then ["--force"] else [])
    + seq(|args|, i requires 0 <= i < |args| => Token(args[i], quote))
  }

  /** One argument of `xe`, rendered by `stringify`. */
  function Token(arg: (string, XeValue), quote: string -> string): string
  {
    Stringify(arg.0, arg.1, quote)
  }

  /**
    The layout of an `xe` command: "xe", the action, "--minimal" if asked,
    "--force" if asked, then one token per argument in dictionary order.
  */
  lemma XeCommandLayout(action: string, args: seq<(string, XeValue)>, minimal: bool, force: bool,
                        quote: string -> string)
    ensures var line := XeCommand(action, args, minimal, force, quote);
            var o := 2 + (if minimal then 1 else 0) + (if force then 1 else 0);
            && line[0] == "xe" && line[1] == action
            && (minimal ==> line[2] == "--minimal")
            && (force ==> line[o - 1] == "--force")
            && (forall j :: o <= j < |line| ==> line[j] == Token(args[j - o], quote))
  {
  }

  /** Booleans render as key=true / key=false, other scalars as key=<quoted value>. */
  lemma StringifyScalars(key: string, b: bool, s: string, quote: string -> string)
    ensures Stringify(key, Flag(b), quote) == (if b then key + "=true" else key + "=false")
    ensures Stringify(key, Plain(s), quote) == key + "=" + quote(s)
  {
  }

  lemma {:induction false} SubKeysTextJoin(key: string, items: seq<(string, string)>)
    requires items != []
    ensures SubKeysText(key, items) == Text.Join(ItemTexts(key, items), ' ') + " "
    decreases |items|
  {
    if |items| > 1 {
      SubKeysTextJoin(key, items[1..]);
    }
  }

  lemma {:induction false} JoinEndsWithLast(ps: seq<string>, sep: char)
    requires ps != []
    ensures var j := Text.Join(ps, sep); var l := ps[|ps| - 1];
            |l| <= |j| && j[|j| - |l|..] == l
    decreases |ps|
  {
    if |ps| > 1 {
      JoinEndsWithLast(ps[1..], sep);
      var rest := Text.Join(ps[1..], sep);
      assert Text.Join(ps, sep) == ps[0] + [sep] + rest;
    }
  }

  /**
    A dictionary value renders as its "key:subkey=subvalue" items separated by
    single spaces, with no trailing space (an empty dictionary renders empty).
    `rstrip()` would also eat whitespace ending the last sub-value, which the
    requirement excludes.
  */
  lemma StringifySubKeys(key: string, items: seq<(string, string)>, quote: string -> string)
    requires items != [] ==> var v := items[|items| - 1].1; v == [] || v[|v| - 1] !in Text.Whitespace
    ensures items == [] ==> Stringify(key, SubKeys(items), quote) == ""
    ensures items != [] ==> Stringify(key, SubKeys(items), quote) == Text.Join(ItemTexts(key, items), ' ')
  {
    if items != [] {
      var ts := ItemTexts(key, items);
      var j := Text.Join(ts, ' ');
      SubKeysTextJoin(key, items);
      LastItemText(key, items);
      JoinEndsWithLast(ts, ' ');
      assert j[|j| - 1] == ts[|ts| - 1][|ts[|ts| - 1]| - 1];
      assert ' ' in Text.Whitespace;
      Text.GraphicNotSpace('=');
      Text.StripOneRight(j, ' ', Text.Whitespace);
    }
  }

  lemma {:induction false} LastItemText(key: string, items: seq<(string, string)>)
    requires items != []
    ensures var ts := ItemTexts(key, items); var v := items[|items| - 1].1;
            ts[|ts| - 1] == SubKeyItem(key, items[|items| - 1])
            && ts[|ts| - 1][|ts[|ts| - 1]| - 1] == (if v == [] then '=' else v[|v| - 1])
    decreases |items|
  {
    if |items| > 1 {
      LastItemText(key, items[1..]);
    }
  }

  // ---------------------------------------------------------------- inventory

  /** One line of the inventory: `key, raw_value = line.split('=')` needs exactly one '='; the value loses its surrounding single quotes. */
  function InventoryEntry(line: string): (r: Result<(string, string)>)
    ensures r.Ok? <==> |Text.Split(line, '=')| == 2
  {
    var parts := Text.Split(line, '=');
    if |parts| != 2 then Err("ValueError: not exactly one '=' in inventory line")
    else Ok((parts[0], Text.Strip(parts[1], {'\''})))
  }

  /** The dictionary `_get_xensource_inventory` builds from `lines`: the first bad line raises, a later key overwrites. */
  function Inventory(lines: seq<string>): Result<map<string, string>>
    decreases |lines|
  {
    if lines == [] then Ok(map[])
    else
      var m :- Inventory(lines[..|lines| - 1]);
      var e :- InventoryEntry(lines[|lines| - 1]);
      Ok(m[e.0 := e.1])
  }

  /** Once a prefix of the lines fails, the whole listing fails the same way. */
  lemma {:induction false} InventoryPrefixFails(lines: seq<string>, n: nat)
    requires n <= |lines| && Inventory(lines[..n]).Err?
    ensures Inventory(lines) == Inventory(lines[..n])
    decreases |lines| - n
  {
    if n < |lines| {
      assert lines[..n + 1][..n] == lines[..n];
      InventoryPrefixFails(lines, n + 1);
    } else {
      assert lines[..n] == lines;
    }
  }

  /** `_get_xensource_inventory()` on the text of /etc/xensource-inventory. */
  method GetXensourceInventory(output: string) returns (r: Result<map<string, string>>)
    ensures r == Inventory(Text.SplitLines(output))
  {
    var lines := Text.SplitLines(output);
    var inventory: map<string, string> := map[];
    var i := 0;
    while i < |lines|
      invariant 0 <= i <= |lines|
      invariant Inventory(lines[..i]) == Ok(inventory)
    {
      var e := InventoryEntry(lines[i]);
      assert lines[..i + 1][..i] == lines[..i];
      if e.Err? {
        InventoryPrefixFails(lines, i + 1);
        return Err(e.msg);
      }
      inventory := inventory[e.value.0 := e.value.1];
      i := i + 1;
    }
    assert lines[..i] == lines;
    r := Ok(inventory);
  }

  /** The listing raises exactly when some line does not hold exactly one '='. */
  lemma {:induction false} InventoryFails(lines: seq<string>)
    ensures Inventory(lines).Err? <==> exists i :: 0 <= i < |lines| && |Text.Split(lines[i], '=')| != 2
    decreases |lines|
  {
    if lines != [] {
      var init := lines[..|lines| - 1];
      InventoryFails(init);
      if exists i :: 0 <= i < |init| && |Text.Split(init[i], '=')| != 2 {
        var i :| 0 <= i < |init| && |Text.Split(init[i], '=')| != 2;
        assert lines[i] == init[i];
      }
      if exists i :: 0 <= i < |lines| && |Text.Split(lines[i], '=')| != 2 {
        var i :| 0 <= i < |lines| && |Text.Split(lines[i], '=')| != 2;
        if i < |init| {
          assert init[i] == lines[i];
        }
      }
    }
  }

  /** Each key of a parsed inventory holds the value of the last line that names it. */
  lemma {:induction false} InventoryLastWins(lines: seq<string>, i: nat)
    requires Inventory(lines).Ok? && i < |lines|
    ensures InventoryEntry(lines[i]).Ok?
    ensures var e := InventoryEntry(lines[i]).value;
            (forall j :: i < j < |lines| ==> InventoryEntry(lines[j]).Ok? && InventoryEntry(lines[j]).value.0 != e.0)
            ==> e.0 in Inventory(lines).value && Inventory(lines).value[e.0] == e.1
    decreases |lines|
  {
    var init := lines[..|lines| - 1];
    if i < |lines| - 1 {
      InventoryLastWins(init, i);
      assert init[i] == lines[i];
      var e := InventoryEntry(lines[i]).value;
      if forall j :: i < j < |lines| ==> InventoryEntry(lines[j]).Ok? && InventoryEntry(lines[j]).value.0 != e.0 {
        forall j | i < j < |init|
          ensures InventoryEntry(init[j]).Ok? && InventoryEntry(init[j]).value.0 != e.0
        {
          assert init[j] == lines[j];
        }
      }
    }
  }

  /** A line `KEY='value'` gives back KEY and the value, for text without '=' or outer quotes. */
  lemma InventoryEntryOf(key: string, value: string)
    requires '=' !in key && '=' !in value
    requires value != [] ==> value[0] != '\'' && value[|value| - 1] != '\''
    ensures InventoryEntry(key + "='" + value + "'") == Ok((key, value))
  {
    var raw := "'" + value + "'";
    assert '=' !in raw;
    assert key + "='" + value + "'" == key + ['='] + raw;
    Text.SplitPrefix(key, raw, '=');
    Text.SplitNoSep(raw, '=');
    Text.StripWrapped(value, '\'');
    assert ['\''] + value + ['\''] == raw;
  }

  // ---------------------------------------------------------------- cache key

  /** `vm_cache_key(uri)`: the name-description that marks a VM as the cached import of `uri`. */
  function VmCacheKey(uri: string, h: Helpers): string
  {
    "[Cache for " + h.stripSuffix(uri, ".xva") + "]"
  }

  /** Two URIs share a cache key exactly when they agree once ".xva" is stripped. */
  lemma VmCacheKeyInjective(a: string, b: string, h: Helpers)
    ensures VmCacheKey(a, h) == VmCacheKey(b, h) <==> h.stripSuffix(a, ".xva") == h.stripSuffix(b, ".xva")
  {
    var ka, kb := VmCacheKey(a, h), VmCacheKey(b, h);
    var sa, sb := h.stripSuffix(a, ".xva"), h.stripSuffix(b, ".xva");
    if ka == kb {
      assert |sa| == |sb|;
      assert forall i :: 0 <= i < |sa| ==> sa[i] == ka[11 + i] && sb[i] == kb[11 + i];
    }
  }

  // ---------------------------------------------------------------- varstore_dir

  function Head(v: seq<nat>): nat { if v == [] then 0 else v[0] }
  function Tail(v: seq<nat>): seq<nat> { if v == [] then [] else v[1..] }

  /** `packaging.version` order on release numbers: component by component, a missing component counting as 0. */
  function CompareRelease(a: seq<nat>, b: seq<nat>): (c: int)
    ensures -1 <= c <= 1
    decreases |a| + |b|
  {
    if a == [] && b == [] then 0
    else if Head(a) < Head(b) then -1
    else if Head(a) > Head(b) then 1
    else CompareRelease(Tail(a), Tail(b))
  }

  /** The order is antisymmetric. */
  lemma {:induction false} CompareReleaseAntisymmetric(a: seq<nat>, b: seq<nat>)
    ensures CompareRelease(a, b) == -CompareRelease(b, a)
    decreases |a| + |b|
  {
    if !(a == [] && b == []) && Head(a) == Head(b) {
      CompareReleaseAntisymmetric(Tail(a), Tail(b));
    }
  }

  /** Trailing zero components do not matter: 8.3 and 8.3.0 are the same version. */
  lemma {:induction false} CompareReleaseZeroPadded(a: seq<nat>, b: seq<nat>)
    ensures CompareRelease(a + [0], b) == CompareRelease(a, b)
    decreases |a| + |b|
  {
    if a == [] {
      assert Head([0]) == 0 && Tail([0]) == [];
      if b != [] {
        CompareReleaseZeroPadded([], Tail(b));
        assert CompareRelease([] + [0], Tail(b)) == CompareRelease([], Tail(b));
        assert [] + [0] == [0];
      }
    } else {
      assert Head(a + [0]) == Head(a) && Tail(a + [0]) == Tail(a) + [0];
      CompareReleaseZeroPadded(Tail(a), Tail(b));
    }
  }

  const UefistoredDir := "/var/lib/uefistored"
  const VarstoredDir := "/var/lib/varstored"

  /** `varstore_dir()`: uefistored's directory before XCP-ng 8.3, varstored's from 8.3 on. */
  function VarstoreDir(release: seq<nat>): string
  {
    if CompareRelease(release, [8, 3]) < 0 then UefistoredDir else VarstoredDir
  }

  lemma {:induction false} CompareWithEmpty(a: seq<nat>)
    ensures CompareRelease(a, []) >= 0
    decreases |a|
  {
    if a != [] && Head(a) == 0 {
      CompareWithEmpty(Tail(a));
    }
  }

  /** For a release major.minor[.rest]: uefistored exactly when major < 8, or major is 8 and minor < 3. */
  lemma VarstoreDirOf(major: nat, minor: nat, rest: seq<nat>)
    ensures VarstoreDir([major, minor] + rest) == if major < 8 || (major == 8 && minor < 3) then UefistoredDir else VarstoredDir
  {
    var v := [major, minor] + rest;
    assert Head(v) == major && Tail(v) == [minor] + rest;
    assert Head([minor] + rest) == minor && Tail([minor] + rest) == rest;
    assert Head([8, 3]) == 8 && Tail([8, 3]) == [3] && Head([3]) == 3 && Tail([3]) == [];
    if major == 8 {
      assert CompareRelease(v, [8, 3]) == CompareRelease([minor] + rest, [3]);
      if minor == 3 {
        assert CompareRelease([minor] + rest, [3]) == CompareRelease(rest, []);
        CompareWithEmpty(rest);
      }
    }
  }

  /** `version.parse` on a plain release "N.N...": each dot-separated piece must be a non-empty run of decimal digits. */
  function ParseRelease(pieces: seq<string>): (r: Option<seq<nat>>)
    ensures r.Some? ==> |r.value| == |pieces|
    decreases |pieces|
  {
    if pieces == [] then Some([])
    else
      var p := pieces[0];
      if p == [] || exists i :: 0 <= i < |p| && !Text.IsDigitIn(p[i], 10) then None
      else match ParseRelease(pieces[1..])
        case None => None
        case Some(rest) => Some([Text.DigitsValue(p, 10)] + rest)
  }

  // ---------------------------------------------------------------- yum history

  /** The separator line under the header of `yum history list`. */
  predicate IsRule(line: string)
  {
    LegacyCommon.StartsWith(line, "--------")
  }

  /** The index of the first separator line. */
  function FirstRule(lines: seq<string>): (r: Option<nat>)
    ensures r.Some? ==> r.value < |lines| && IsRule(lines[r.value]) && forall j :: 0 <= j < r.value ==> !IsRule(lines[j])
    ensures r.None? ==> forall j :: 0 <= j < |lines| ==> !IsRule(lines[j])
    decreases |lines|
  {
    if lines == [] then None
    else if IsRule(lines[0]) then Some(0)
    else match FirstRule(lines[1..])
      case None => None
      case Some(i) => Some(i + 1)
  }

  const NoTransactions := "Unable to get yum transactions"

  /** The transaction id under the separator of the listing's lines, or why there is none. */
  function TidOfLines(lines: seq<string>, history: string): (r: Result<int>)
  {
    match FirstRule(lines)
    case None => Err(NoTransactions)
    case Some(i) =>
      if i + 1 == |lines| then Err("IndexError: list index out of range")
      else
        var words := Text.Words(lines[i + 1]);
        if words == [] then Err("IndexError: list index out of range")
        else match Text.ParseInt(words[0], 10)
          case None => Err("Unable to parse correctly last yum history tid. Output:\n" + history)
          case Some(n) => Ok(n)
  }

  /** What `get_last_yum_history_tid` makes of the listing `history`. */
  function YumHistoryTid(history: string): Result<int>
  {
    TidOfLines(Text.SplitLines(history), history)
  }

  /**
    `get_last_yum_history_tid()`.  `listing` is the first `yum history list`;
    when it fails, the method installs and removes a small package and lists
    again, with outcome `retry`.
  */
  method GetLastYumHistoryTid(listing: Result<string>, retry: Result<string>) returns (r: Result<int>)
    ensures listing.Ok? ==> r == YumHistoryTid(listing.value)
    ensures listing.Err? && retry.Ok? ==> r == YumHistoryTid(retry.value)
    ensures listing.Err? && retry.Err? ==> r == Err(retry.msg)
  {
    var historyStr: string;
    if listing.Ok? {
      historyStr := listing.value;
    } else if retry.Ok? {
      historyStr := retry.value;
    } else {
      return Err(retry.msg);
    }
    var history := Text.SplitLines(historyStr);
    var lineIndex: Option<nat> := None;
    var i := 0;
    while i < |history|
      invariant 0 <= i <= |history|
      invariant forall j :: 0 <= j < i ==> !IsRule(history[j])
    {
      if IsRule(history[i]) {
        lineIndex := Some(i);
        break;
      }
      i := i + 1;
    }
    assert lineIndex == FirstRule(history);
    if lineIndex.None? {
      return Err(NoTransactions);
    }
    var k := lineIndex.value + 1;
    if k == |history| {
      return Err("IndexError: list index out of range");
    }
    var words := Text.Words(history[k]);
    if words == [] {
      return Err("IndexError: list index out of range");
    }
    var n := Text.ParseInt(words[0], 10);
    if n.None? {
      return Err("Unable to parse correctly last yum history tid. Output:\n" + historyStr);
    }
    r := Ok(n.value);
  }

  /** A listing without separator line has no transactions; one with a separator line never reports that. */
  lemma YumHistoryNoRule(lines: seq<string>, history: string)
    ensures TidOfLines(lines, history) == Err(NoTransactions) <==> forall j :: 0 <= j < |lines| ==> !IsRule(lines[j])
  {
  }

  lemma {:induction false} DigitsAreNotSpace(ds: string)
    requires forall i :: 0 <= i < |ds| ==> Text.IsDigitIn(ds[i], 10)
    ensures forall c :: c in ds ==> c !in Text.Whitespace
  {
    forall c | c in ds ensures c !in Text.Whitespace {
      var i :| 0 <= i < |ds| && ds[i] == c;
      assert Text.IsDigitIn(c, 10);
      assert '0' <= c <= '9';
    }
  }

  /**
    The transaction id is the number opening the line after the first separator:
    with the separator at index `i` and "<n> <rest>" after it, the result is n.
  */
  lemma TidOfLinesReads(lines: seq<string>, history: string, i: nat, n: int, rest: string)
    requires i + 1 < |lines| && IsRule(lines[i]) && forall j :: 0 <= j < i ==> !IsRule(lines[j])
    requires lines[i + 1] == Text.IntToString(n) + " " + rest
    ensures TidOfLines(lines, history) == Ok(n)
  {
    var w := Text.IntToString(n);
    assert FirstRule(lines) == Some(i);
    if n < 0 {
      DigitsAreNotSpace(Text.ToDigits(-n, 10));
      assert w == ['-'] + Text.ToDigits(-n, 10);
    } else {
      DigitsAreNotSpace(Text.ToDigits(n, 10));
    }
    WordsOpening(w, rest);
    Text.IntRoundTrip(n);
  }

  /** The first field of "<w> <rest>" is w, for a non-empty w without whitespace. */
  lemma WordsOpening(w: string, rest: string)
    requires w != [] && forall c :: c in w ==> c !in Text.Whitespace
    ensures Text.Words(w + " " + rest) != [] && Text.Words(w + " " + rest)[0] == w
  {
    Text.WordsAccPlain(w, [], " " + rest);
    assert w + " " + rest == w + (" " + rest);
    assert [] + w == w;
    assert ' ' in Text.Whitespace;
    assert Text.WordsAcc(" " + rest, w) == [w] + Text.WordsAcc(rest, []);
  }

  // ---------------------------------------------------------------- available_disks

  /**
    The disks of lsblk's NAME,LOG-SEC listing whose sector-size field is `size`,
    in listing order; a line with fewer than two fields raises IndexError.
  */
  function SectorMatches(lines: seq<string>, size: string): Result<seq<string>>
    decreases |lines|
  {
    if lines == [] then Ok([])
    else
      var prev :- SectorMatches(lines[..|lines| - 1], size);
      var words := Text.Words(lines[|lines| - 1]);
      if |words| < 2 then Err("IndexError: list index out of range")
      else Ok(prev + if words[1] == size then [words[0]] else [])
  }

  /** `disk_is_available(disk)`: lsblk prints no mountpoint for the disk or its children. */
  predicate DiskIsAvailable(mountpoints: string -> string, disk: string)
  {
    Text.Strip(mountpoints(disk), Text.Whitespace) == []
  }

  /** The comprehension `[disk for disk in disks if self.disk_is_available(disk)]`. */
  function Unmounted(disks: seq<string>, mountpoints: string -> string): (r: seq<string>)
    ensures forall d :: d in r <==> d in disks && DiskIsAvailable(mountpoints, d)
    decreases |disks|
  {
    if disks == [] then []
    else (if DiskIsAvailable(mountpoints, disks[0]) then [disks[0]] else []) + Unmounted(disks[1..], mountpoints)
  }

  lemma {:induction false} SectorMatchesPrefixFails(lines: seq<string>, size: string, n: nat)
    requires n <= |lines| && SectorMatches(lines[..n], size).Err?
    ensures SectorMatches(lines, size) == SectorMatches(lines[..n], size)
    decreases |lines| - n
  {
    if n < |lines| {
      assert lines[..n + 1][..n] == lines[..n];
      SectorMatchesPrefixFails(lines, size, n + 1);
    } else {
      assert lines[..n] == lines;
    }
  }

  lemma SectorMatchesStep(lines: seq<string>, size: string, i: nat, acc: seq<string>)
    requires i < |lines| && SectorMatches(lines[..i], size) == Ok(acc)
    ensures var words := Text.Words(lines[i]);
            SectorMatches(lines[..i + 1], size)
            == if |words| < 2 then Err("IndexError: list index out of range")
               else Ok(acc + if words[1] == size then [words[0]] else [])
  {
    assert lines[..i + 1][..i] == lines[..i];
    assert lines[..i + 1][i] == lines[i];
  }

  /**
    `available_disks(blocksize)`: `lsblk` is the NAME,LOG-SEC listing and
    `mountpoints(disk)` what lsblk prints as the disk's mountpoints.
  */
  method AvailableDisks(lsblk: string, blocksize: int, mountpoints: string -> string) returns (r: Result<seq<string>>)
    ensures var m := SectorMatches(Text.SplitLines(lsblk), Text.IntToString(blocksize));
            && (r.Ok? <==> m.Ok?)
            && (r.Ok? ==> r.value == Unmounted(m.value, mountpoints))
  {
    var size := Text.IntToString(blocksize);
    var blkOutput := Text.SplitLines(lsblk);
    var availDisks: seq<string> := [];
    var i := 0;
    while i < |blkOutput|
      invariant 0 <= i <= |blkOutput|
      invariant SectorMatches(blkOutput[..i], size) == Ok(availDisks)
    {
      var line := Text.Words(blkOutput[i]);
      SectorMatchesStep(blkOutput, size, i, availDisks);
      if |line| < 2 {
        SectorMatchesPrefixFails(blkOutput, size, i + 1);
        return Err("IndexError: list index out of range");
      }
      var disk := line[0];
      var secSize := line[1];
      if secSize == size {
        availDisks := availDisks + [disk];
      } else {
        assert availDisks + [] == availDisks;
      }
      i := i + 1;
    }
    assert blkOutput[..i] == blkOutput;
    r := Ok(Unmounted(availDisks, mountpoints));
  }

  /** A disk is listed exactly when some lsblk line names it with sector size `size`. */
  lemma {:induction false} SectorMatchesMembers(lines: seq<string>, size: string)
    requires SectorMatches(lines, size).Ok?
    ensures forall i :: 0 <= i < |lines| ==> |Text.Words(lines[i])| >= 2
    ensures forall d :: d in SectorMatches(lines, size).value <==>
              exists i :: 0 <= i < |lines| && Text.Words(lines[i])[0] == d && Text.Words(lines[i])[1] == size
    decreases |lines|
  {
    if lines != [] {
      var init := lines[..|lines| - 1];
      SectorMatchesMembers(init, size);
      assert forall i :: 0 <= i < |init| ==> init[i] == lines[i];
      forall d | d in SectorMatches(lines, size).value
        ensures exists i :: 0 <= i < |lines| && Text.Words(lines[i])[0] == d && Text.Words(lines[i])[1] == size
      {
        if d in SectorMatches(init, size).value {
          var i :| 0 <= i < |init| && Text.Words(init[i])[0] == d && Text.Words(init[i])[1] == size;
          assert lines[i] == init[i];
        } else {
          assert Text.Words(lines[|lines| - 1])[0] == d;
        }
      }
      forall d | exists i :: 0 <= i < |lines| && Text.Words(lines[i])[0] == d && Text.Words(lines[i])[1] == size
        ensures d in SectorMatches(lines, size).value
      {
        var i :| 0 <= i < |lines| && Text.Words(lines[i])[0] == d && Text.Words(lines[i])[1] == size;
        if i < |init| {
          assert init[i] == lines[i];
        }
      }
    }
  }

  // ---------------------------------------------------------------- host_data

  /** A host's SSH credentials. */
  datatype Credentials = Credentials(user: string, password: string)

  /** `host_data(hostname_or_ip)`: the host's entry of `HOSTS`, else the default user and password. */
  function HostData(name: string, hosts: map<string, Credentials>, defaultUser: string, defaultPassword: string): (c: Credentials)
    ensures name in hosts ==> c == hosts[name]
    ensures name !in hosts ==> c == Credentials(defaultUser, defaultPassword)
  {
    if name in hosts then hosts[name] else Credentials(defaultUser, defaultPassword)
  }

  // ---------------------------------------------------------------- yum state comparison

  /** `[x for x in saved if x not in set(pkgs)]`. */
  function Missing(saved: seq<string>, pkgs: seq<string>): (r: seq<string>)
    ensures forall x :: x in r <==> x in saved && x !in pkgs
    decreases |saved|
  {
    if saved == [] then []
    else (if saved[0] !in pkgs then [saved[0]] else []) + Missing(saved[1..], pkgs)
  }

  const GpgPubkeyPrefix := "gpg-pubkey-"

  /** `[x for x in pkgs if x not in set(saved) and not x.startswith("gpg-pubkey-")]`. */
  function Extra(saved: seq<string>, pkgs: seq<string>): (r: seq<string>)
    ensures forall x :: x in r <==> x in pkgs && x !in saved && !LegacyCommon.StartsWith(x, GpgPubkeyPrefix)
    decreases |pkgs|
  {
    if pkgs == [] then []
    else (if pkgs[0] !in saved && !LegacyCommon.StartsWith(pkgs[0], GpgPubkeyPrefix) then [pkgs[0]] else [])
         + Extra(saved, pkgs[1..])
  }

  /** The installed packages match the saved ones: none missing, and nothing extra but GPG public keys. */
  predicate Restored(saved: seq<string>, pkgs: seq<string>)
  {
    (forall x :: x in saved ==> x in pkgs)
    && (forall x :: x in pkgs ==> x in saved || LegacyCommon.StartsWith(x, GpgPubkeyPrefix))
  }

  // ---------------------------------------------------------------- cache lookup

  /** The pool a host belongs to: its UUID and its master's address and credentials. */
  datatype PoolInfo = PoolInfo(uuid: string, master: string, masterCredentials: Credentials)

  /** `management_network()` of the host at `address`; empty when it has none. */
  function ManagementNetwork(w: World, address: string): string
  {
    if address in w.mgmtNetwork then w.mgmtNetwork[address] else ""
  }

  /** A cached VM fits SR `sr` when it has no VDI at all or its first disk is on `sr`. */
  predicate SuitsSr(w: World, vm: Uuid, sr: Uuid)
  {
    vm in w.vms && (w.vms[vm].disks == [] || FirstDiskSr(w, vm) == Some(sr))
  }

  /** The first VM of `vms` that fits `sr`. */
  function FirstSuiting(w: World, vms: seq<Uuid>, sr: Uuid): (r: Option<Uuid>)
    ensures r.Some? ==> r.value in vms && SuitsSr(w, r.value, sr)
    decreases |vms|
  {
    if vms == [] then None
    else if SuitsSr(w, vms[0], sr) then Some(vms[0])
    else FirstSuiting(w, vms[1..], sr)
  }

  /** No VM before the one found fits: the one found comes no later than any VM that fits. */
  lemma {:induction false} FirstSuitingIsFirst(w: World, vms: seq<Uuid>, sr: Uuid, i: nat)
    requires i < |vms| && SuitsSr(w, vms[i], sr)
    ensures FirstSuiting(w, vms, sr).Some?
    ensures exists k :: 0 <= k <= i && vms[k] == FirstSuiting(w, vms, sr).value
    decreases i
  {
    if !SuitsSr(w, vms[0], sr) {
      assert i > 0 && vms[1..][i - 1] == vms[i];
      FirstSuitingIsFirst(w, vms[1..], sr, i - 1);
      var k :| 0 <= k <= i - 1 && vms[1..][k] == FirstSuiting(w, vms[1..], sr).value;
      assert vms[k + 1] == vms[1..][k];
    } else {
      assert vms[0] == FirstSuiting(w, vms, sr).value;
    }
  }

  /** When nothing fits, nothing is found. */
  lemma {:induction false} FirstSuitingNone(w: World, vms: seq<Uuid>, sr: Uuid)
    requires FirstSuiting(w, vms, sr).None?
    ensures forall i :: 0 <= i < |vms| ==> !SuitsSr(w, vms[i], sr)
  {
    forall i | 0 <= i < |vms| ensures !SuitsSr(w, vms[i], sr) {
      if SuitsSr(w, vms[i], sr) {
        FirstSuitingIsFirst(w, vms, sr, i);
      }
    }
  }

  const NeedSr := "A SR UUID is necessary to use import cache"

  /** `cached_vm(uri, sr_uuid)` once the key is computed: the first VM carrying the key that fits the SR. */
  function CachedVmSpec(w: World, key: string, sr: Option<Uuid>): Result<Option<Uuid>>
  {
    if sr.None? then Err(NeedSr) else Ok(FirstSuiting(w, VmsWithDescription(w, key), sr.value))
  }

  /**
    The lookup finds the VM of lowest UUID that carries the key and fits the SR;
    it finds none exactly when no VM carrying the key fits; without SR it raises.
  */
  lemma CachedVmLookup(w: World, key: string, sr: Option<Uuid>)
    requires Valid(w)
    ensures CachedVmSpec(w, key, sr).Err? <==> sr.None?
    ensures var r := CachedVmSpec(w, key, sr);
            r.Ok? && r.value.Some? ==>
              var u := r.value.value;
              && u in w.vms && w.vms[u].description == key && SuitsSr(w, u, sr.value)
              && forall v :: v in w.vms && v < u && w.vms[v].description == key ==> !SuitsSr(w, v, sr.value)
    ensures var r := CachedVmSpec(w, key, sr);
            r.Ok? && r.value.None? ==>
              forall v :: v in w.vms && w.vms[v].description == key ==> !SuitsSr(w, v, sr.value)
  {
    if sr.Some? {
      var vms := VmsWithDescription(w, key);
      var r := FirstSuiting(w, vms, sr.value);
      if r.None? {
        FirstSuitingNone(w, vms, sr.value);
        forall v | v in w.vms && w.vms[v].description == key
          ensures !SuitsSr(w, v, sr.value)
        {
          assert v in vms;
        }
      } else {
        forall v | v in w.vms && w.vms[v].description == key && SuitsSr(w, v, sr.value)
          ensures r.value <= v
        {
          assert v in vms;
          var i :| 0 <= i < |vms| && vms[i] == v;
          FirstSuitingIsFirst(w, vms, sr.value, i);
          var k :| 0 <= k <= i && vms[k] == r.value;
          assert k == i || vms[k] < vms[i];
        }
      }
    }
  }

  // ---------------------------------------------------------------- import_vm

  /** Python `needle in s` on strings. */
  predicate HasInfix(s: string, needle: string)
    decreases |s|
  {
    LegacyCommon.StartsWith(s, needle) || (s != [] && HasInfix(s[1..], needle))
  }

  /** A URI `clone://<file>` or `clone+start://<file>`: a clone of the cached import of <file>. */
  predicate IsCloneUri(uri: string)
  {
    HasInfix(uri, "://") && LegacyCommon.StartsWith(uri, "clone")
  }

  /** How `import_vm` serves a request. */
  datatype ImportPath =
    | Refuse(msg: string)               // an assertion or the cache lookup raises
    | Reuse(vm: Uuid)                   // the cached VM itself
    | CloneCached(base: Uuid, start: bool)  // a clone of the cached VM, started for "clone+start"
    | Import                            // a real `xe vm-import`

  /** The route `import_vm(uri, sr_uuid, use_cache)` takes in world `w`. */
  function ImportRoute(w: World, uri: string, sr: Option<Uuid>, useCache: bool, h: Helpers): ImportPath
  {
    if !useCache then (if IsCloneUri(uri) then Refuse("clone URIs require cache enabled") else Import)
    else if IsCloneUri(uri) then
      match Text.SplitOnce(uri, ':')
      case Err(m) => Refuse(m)
      case Ok(parts) =>
        if !LegacyCommon.StartsWith(parts.1, "//") then Refuse("AssertionError")
        else match CachedVmSpec(w, VmCacheKey(parts.1[2..], h), sr)
          case Err(m) => Refuse(m)
          case Ok(None) => Import
          case Ok(Some(base)) => CloneCached(base, LegacyCommon.StartsWith(uri, "clone+start"))
    else match CachedVmSpec(w, VmCacheKey(uri, h), sr)
      case Err(m) => Refuse(m)
      case Ok(None) => Import
      case Ok(Some(vm)) => Reuse(vm)
  }

  /**
    The commands that serve a cache hit for a clone URI: `base_vm.clone()`
    (named after the base), `param_clear('name-description')` on the clone,
    and `start()` for "clone+start".  The clone gets the counter's value.
  */
  function CloneCommands(w: World, base: Uuid, start: bool): seq<Command>
    requires base in w.vms
  {
    [VmClone(base, w.vms[base].name + "_clone_for_tests"), VmParamClear(w.next, "name-description")]
    + if start then [VmStart(w.next)] else []
  }

  /**
    What the clone branch leaves behind in world `w`, starting from `w0`: a new
    VM `vm` named after the base with "_clone_for_tests", with an empty
    description and as many disks as the base, running when started and halted
    otherwise; every VM of `w0` is as it was.
  */
  ghost predicate FreshClone(w0: World, w: World, base: Uuid, vm: Uuid, start: bool)
  {
    && base in w0.vms && vm == w0.next && vm !in w0.vms && vm in w.vms
    && w.vms[vm].name == w0.vms[base].name + "_clone_for_tests"
    && w.vms[vm].description == ""
    && |w.vms[vm].disks| == |w0.vms[base].disks|
    && w.vms[vm].power == (if start then Running else Halted)
    && (forall u :: u in w0.vms ==> u in w.vms && w.vms[u] == w0.vms[u])
  }

  /** The log positions from `from` on, `n` of them, are free of injected faults. */
  predicate NoFaults(faults: set<nat>, from: nat, n: nat)
  {
    forall k :: from <= k < from + n ==> k !in faults
  }

  /**
    What a fresh import leaves behind in world `w`, starting from `w0`: a new VM
    whose name-label is the image's name with the test prefix, whose VIFs are all
    on the host's management network, and which carries the cache key when the
    import is cached.
  */
  ghost predicate FreshImport(w0: World, w: World, uri: string, vm: Uuid, useCache: bool, address: string, h: Helpers)
  {
    && uri in w0.images && vm == w0.next && vm !in w0.vms && vm in w.vms
    && w.vms[vm].name == h.prefixObjectName(w0.images[uri].nameLabel)
    && (useCache ==> w.vms[vm].description == VmCacheKey(uri, h))
    && (forall i :: 0 <= i < |w.vms[vm].vifs| ==>
          w.vms[vm].vifs[i] in w.vifs && w.vifs[w.vms[vm].vifs[i]].network == ManagementNetwork(w0, address))
    && (forall u :: u in w0.vms ==> u in w.vms && w.vms[u] == w0.vms[u])
  }

  // ---------------------------------------------------------------- the host handle

  class Host {
    const plane: Plane
    const address: string
    const credentials: Credentials
    const pool: PoolInfo
    const uuid: string
    const release: seq<nat>
    /** `main_sr_uuid()`; none when the host has no usable SR (the call raises). */
    const mainSr: Option<Uuid>
    var savedPackages: Option<seq<string>>
    var savedRollbackId: Option<int>

    constructor (plane: Plane, address: string, credentials: Credentials, pool: PoolInfo, uuid: string,
                 release: seq<nat>, mainSr: Option<Uuid>)
      ensures this.plane == plane && this.address == address && this.credentials == credentials
      ensures this.pool == pool && this.uuid == uuid && this.release == release && this.mainSr == mainSr
      ensures savedPackages.None? && savedRollbackId.None?
    {
      this.plane := plane;
      this.address := address;
      this.credentials := credentials;
      this.pool := pool;
      this.uuid := uuid;
      this.release := release;
      this.mainSr := mainSr;
      savedPackages := None;
      savedRollbackId := None;
    }

    /**
      `yum_save_state()`: `pkgs` is what `packages()` returns.  A saved list
      already present refuses.  The list is saved before the transaction id is
      read, so a failing read leaves the list saved and the id as it was.
    */
    method YumSaveState(pkgs: seq<string>, listing: Result<string>, retry: Result<string>) returns (r: Result<()>)
      modifies this
      ensures old(savedPackages).Some? ==>
                r.Err? && savedPackages == old(savedPackages) && savedRollbackId == old(savedRollbackId)
      ensures old(savedPackages).None? ==>
                var tid := if listing.Ok? then YumHistoryTid(listing.value)
                           else if retry.Ok? then YumHistoryTid(retry.value) else Err(retry.msg);
                && savedPackages == Some(pkgs)
                && (r.Ok? <==> tid.Ok?)
                && (r.Ok? ==> savedRollbackId == Some(tid.value))
                && (r.Err? ==> savedRollbackId == old(savedRollbackId))
    {
      if savedPackages.Some? {
        return Err("There is already a saved package list set");
      }
      savedPackages := Some(pkgs);
      var tid := GetLastYumHistoryTid(listing, retry);
      if tid.Err? {
        return Err(tid.msg);
      }
      savedRollbackId := Some(tid.value);
      r := Ok(());
    }

    /**
      `yum_restore_saved_state()`: rolls back to the saved transaction (with
      outcome `rollback(id)`), then compares `pkgs`, what `packages()` returns
      afterwards, with the saved list.  Success clears both saved fields; any
      failure keeps them.
    */
    method YumRestoreSavedState(pkgs: seq<string>, rollback: int -> Result<()>) returns (r: Result<()>)
      modifies this
      ensures r.Ok? <==> old(savedPackages).Some? && old(savedRollbackId).Some?
                         && rollback(old(savedRollbackId).value).Ok? && Restored(old(savedPackages).value, pkgs)
      ensures r.Ok? ==> savedPackages.None? && savedRollbackId.None?
      ensures r.Err? ==> savedPackages == old(savedPackages) && savedRollbackId == old(savedRollbackId)
    {
      if savedPackages.None? {
        return Err("Can't restore previous state without a package list: no saved packages list");
      }
      if savedRollbackId.None? {
        return Err("Can't restore previous state without a package list: no rollback id");
      }
      var rolled := rollback(savedRollbackId.value);
      if rolled.Err? {
        return Err(rolled.msg);
      }
      var saved := savedPackages.value;
      if saved != pkgs {
        var missing := Missing(saved, pkgs);
        var extra := Extra(saved, pkgs);
        if missing != [] || extra != [] {
          if missing != [] {
            assert missing[0] in missing;
          } else {
            assert extra[0] in extra;
          }
          return Err("Yum state badly restored. Missing: [" + Text.Join(missing, ' ') + "], extra: ["
                     + Text.Join(extra, ' ') + "].");
        }
        assert forall x :: x in saved ==> x !in missing;
        assert forall x :: x in pkgs ==> x !in extra;
      }
      savedPackages := None;
      savedRollbackId := None;
      r := Ok(());
    }

    /** `cached_vm(uri, sr_uuid)`: the search loop over the VMs carrying the cache key. */
    method CachedVm(uri: string, sr: Option<Uuid>, h: Helpers) returns (r: Result<Option<Uuid>>)
      ensures r == CachedVmSpec(plane.world, VmCacheKey(uri, h), sr)
    {
      if sr.None? {
        return Err(NeedSr);
      }
      var key := VmCacheKey(uri, h);
      var vmUuids := VmsWithDescription(plane.world, key);
      var i := 0;
      while i < |vmUuids|
        invariant 0 <= i <= |vmUuids|
        invariant FirstSuiting(plane.world, vmUuids, sr.value) == FirstSuiting(plane.world, vmUuids[i..], sr.value)
      {
        assert vmUuids[i..][1..] == vmUuids[i + 1..];
        if SuitsSr(plane.world, vmUuids[i], sr.value) {
          return Ok(Some(vmUuids[i]));
        }
        i := i + 1;
      }
      r := Ok(None);
    }

    /**
      The first two commands of the clone branch: `base_vm.clone()`, then
      `param_clear('name-description')` on the clone.
    */
    method CloneCleared(base: Uuid) returns (r: Result<Uuid>)
      requires Valid(plane.world) && base in plane.world.vms
      modifies plane
      ensures Valid(plane.world)
      ensures var c0 := VmClone(base, old(plane.world).vms[base].name + "_clone_for_tests");
              && (plane.log == old(plane.log) + [c0]
                  || plane.log == old(plane.log) + [c0, VmParamClear(old(plane.world).next, "name-description")])
              && (r.Ok? <==> NoFaults(plane.faults, |old(plane.log)|, 2))
              && (r.Ok? ==> |plane.log| == |old(plane.log)| + 2)
      ensures r.Ok? ==> FreshClone(old(plane.world), plane.world, base, r.value, false)
    {
      var vm := plane.Clone(base, plane.world.vms[base].name + "_clone_for_tests");
      if vm.Err? {
        return Err(vm.msg);
      }
      ghost var w1 := plane.world;
      var cleared := plane.ParamClear(vm.value, "name-description");
      if cleared.Err? {
        return Err(cleared.msg);
      }
      assert plane.world.vms[vm.value] == ClearParam(w1.vms[vm.value], "name-description");
      r := Ok(vm.value);
    }

    /**
      The clone branch of `import_vm` on a cache hit: clone, clear the
      description, start for "clone+start".  The commands are logged in that
      order up to the first failure, and only an injected fault can fail them.
    */
    method CloneFromCache(base: Uuid, start: bool) returns (r: Result<Uuid>)
      requires Valid(plane.world) && base in plane.world.vms
      modifies plane
      ensures Valid(plane.world)
      ensures var plan := CloneCommands(old(plane.world), base, start);
              && LoggedPrefix(old(plane.log), plane.log, plan)
              && (r.Ok? <==> NoFaults(plane.faults, |old(plane.log)|, |plan|))
              && (r.Ok? ==> |plane.log| == |old(plane.log)| + |plan|)
      ensures r.Ok? ==> FreshClone(old(plane.world), plane.world, base, r.value, start)
    {
      ghost var w0, log0 := plane.world, plane.log;
      ghost var plan := CloneCommands(w0, base, start);
      var vm := CloneCleared(base);
      assert plan[..1] == [plan[0]] && plan[..2] == [plan[0], plan[1]];
      if vm.Err? {
        return Err(vm.msg);
      }
      if start {
        ghost var w2, log2 := plane.world, plane.log;
        var started := plane.Start(vm.value);
        LoggedNext(log0, log2, plan);
        if started.Err? {
          assert |log0| + 2 in plane.faults;
          return Err(started.msg);
        }
        assert plane.world.vms[vm.value] == w2.vms[vm.value].(power := Running);
      }
      r := Ok(vm.value);
    }

    /** `vif.move(network)` for each VIF in turn, stopping at the first failure; only VIF records change. */
    method MoveVifs(vifs: seq<Uuid>, network: string) returns (r: Result<()>)
      requires Valid(plane.world)
      modifies plane
      ensures Valid(plane.world) && plane.world == old(plane.world).(vifs := plane.world.vifs)
      ensures |plane.log| >= |old(plane.log)| && plane.log[..|old(plane.log)|] == old(plane.log)
      ensures r.Ok? ==> forall j :: 0 <= j < |vifs| ==> vifs[j] in plane.world.vifs && plane.world.vifs[vifs[j]].network == network
    {
      ghost var w0, log0 := plane.world, plane.log;
      var i := 0;
      while i < |vifs|
        invariant 0 <= i <= |vifs|
        invariant Valid(plane.world) && plane.world == w0.(vifs := plane.world.vifs)
        invariant |plane.log| >= |log0| && plane.log[..|log0|] == log0
        invariant forall j :: 0 <= j < i ==> vifs[j] in plane.world.vifs && plane.world.vifs[vifs[j]].network == network
      {
        var moved := plane.MoveVif(vifs[i], network);
        if moved.Err? {
          return Err(moved.msg);
        }
        i := i + 1;
      }
      r := Ok(());
    }

    /** `xe vm-import`, then the name-label set to the image's name with the test prefix. */
    method ImportNamed(uri: string, sr: Option<Uuid>, h: Helpers) returns (r: Result<Uuid>)
      requires Valid(plane.world)
      modifies plane
      ensures Valid(plane.world)
      ensures |plane.log| > |old(plane.log)| && plane.log[..|old(plane.log)| + 1] == old(plane.log) + [VmImport(uri, sr, pool.uuid)]
      ensures r.Ok? ==> && uri in old(plane.world).images && r.value == old(plane.world).next
                        && r.value !in old(plane.world).vms && r.value in plane.world.vms
                        && plane.world.vms[r.value].name == h.prefixObjectName(old(plane.world).images[uri].nameLabel)
                        && plane.world.mgmtNetwork == old(plane.world).mgmtNetwork
                        && forall u :: u in old(plane.world).vms ==> u in plane.world.vms && plane.world.vms[u] == old(plane.world).vms[u]
    {
      ghost var log0 := plane.log;
      var imported := plane.Import(uri, sr, pool.uuid);
      if imported.Err? {
        return Err(imported.msg);
      }
      var vm := imported.value;
      var named := plane.ParamSet(vm, "name-label", h.prefixObjectName(plane.world.vms[vm].name));
      assert plane.log[..|log0| + 1] == log0 + [VmImport(uri, sr, pool.uuid)];
      if named.Err? {
        return Err(named.msg);
      }
      r := Ok(vm);
    }

    /** The import branch of `import_vm`: `xe vm-import`, the prefixed name, VIFs moved to the management network, the cache key. */
    method ImportFresh(uri: string, sr: Option<Uuid>, useCache: bool, h: Helpers) returns (r: Result<Uuid>)
      requires Valid(plane.world)
      modifies plane
      ensures Valid(plane.world)
      ensures |plane.log| > |old(plane.log)| && plane.log[..|old(plane.log)| + 1] == old(plane.log) + [VmImport(uri, sr, pool.uuid)]
      ensures r.Ok? ==> FreshImport(old(plane.world), plane.world, uri, r.value, useCache, address, h)
    {
      ghost var w0, log0 := plane.world, plane.log;
      var vm := ImportNamed(uri, sr, h);
      if vm.Err? {
        return Err(vm.msg);
      }
      ghost var log1 := plane.log;
      var moved := MoveVifs(plane.world.vms[vm.value].vifs, ManagementNetwork(plane.world, address));
      assert plane.log[..|log0| + 1] == log1[..|log0| + 1];
      if moved.Err? {
        return Err(moved.msg);
      }
      if useCache {
        ghost var w2, log2 := plane.world, plane.log;
        var marked := plane.ParamSet(vm.value, "name-description", VmCacheKey(uri, h));
        assert plane.log[..|log0| + 1] == log2[..|log0| + 1];
        if marked.Err? {
          return Err(marked.msg);
        }
        assert plane.world.vifs == w2.vifs;
      }
      r := Ok(vm.value);
    }

    /**
      `import_vm(uri, sr_uuid, use_cache)`.  Without cache a clone URI is
      refused; with cache a hit is served without importing (the cached VM, or
      for a clone URI a fresh clone of it), and a miss imports.
    */
    method ImportVm(uri: string, sr: Option<Uuid>, useCache: bool, h: Helpers) returns (r: Result<Uuid>)
      requires Valid(plane.world)
      modifies plane
      ensures Valid(plane.world)
      ensures var route := ImportRoute(old(plane.world), uri, sr, useCache, h);
              && (route.Refuse? ==> r == Err(route.msg) && plane.world == old(plane.world) && plane.log == old(plane.log))
              && (route.Reuse? ==> r == Ok(route.vm) && plane.world == old(plane.world) && plane.log == old(plane.log))
              && (route.CloneCached? ==>
                    && route.base in old(plane.world).vms
                    && var plan := CloneCommands(old(plane.world), route.base, route.start);
                    && |old(plane.log)| < |plane.log| <= |old(plane.log)| + |plan|
                    && plane.log == old(plane.log) + plan[..|plane.log| - |old(plane.log)|]
                    && (r.Ok? <==> NoFaults(plane.faults, |old(plane.log)|, |plan|))
                    && (r.Ok? ==> FreshClone(old(plane.world), plane.world, route.base, r.value, route.start)))
              && (route.Import? ==>
                    && |plane.log| > |old(plane.log)|
                    && plane.log[..|old(plane.log)| + 1] == old(plane.log) + [VmImport(uri, sr, pool.uuid)]
                    && (r.Ok? ==> FreshImport(old(plane.world), plane.world, uri, r.value, useCache, address, h)))
    {
      if useCache {
        if HasInfix(uri, "://") && LegacyCommon.StartsWith(uri, "clone") {
          var parts := Text.SplitOnce(uri, ':');
          if parts.Err? {
            return Err(parts.msg);
          }
          var rest := parts.value.1;
          if !LegacyCommon.StartsWith(rest, "//") {
            return Err("AssertionError");
          }
          var filename := rest[2..];
          var baseVm := CachedVm(filename, sr, h);
          if baseVm.Err? {
            return Err(baseVm.msg);
          }
          if baseVm.value.Some? {
            CachedVmLookup(plane.world, VmCacheKey(filename, h), sr);
            r := CloneFromCache(baseVm.value.value, LegacyCommon.StartsWith(uri, "clone+start"));
            return;
          }
        } else {
          var vm := CachedVm(uri, sr, h);
          if vm.Err? {
            return Err(vm.msg);
          }
          if vm.value.Some? {
            return Ok(vm.value.value);
          }
        }
      } else if HasInfix(uri, "://") && LegacyCommon.StartsWith(uri, "clone") {
        return Err("clone URIs require cache enabled");
      }
      r := ImportFresh(uri, sr, useCache, h);
    }
  }

  /** The release `version.parse` reads from an inventory's PRODUCT_VERSION. */
  function ProductRelease(inventory: map<string, string>): Option<seq<nat>>
    requires "PRODUCT_VERSION" in inventory
  {
    ParseRelease(Text.Split(inventory["PRODUCT_VERSION"], '.'))
  }

  /**
    `Host(pool, hostname_or_ip)`: the credentials come from the host data or the
    defaults; the inventory is parsed from `inventoryText`, the text of
    /etc/xensource-inventory on the host.  A bad inventory line, a missing
    INSTALLATION_UUID or PRODUCT_VERSION (KeyError) or an unparsable version
    raises, and then no host is made.
  */
  method NewHost(plane: Plane, address: string, hosts: map<string, Credentials>, defaultUser: string,
                 defaultPassword: string, pool: PoolInfo, inventoryText: string, mainSr: Option<Uuid>)
    returns (r: Result<Host>)
    ensures var inv := Inventory(Text.SplitLines(inventoryText));
            r.Ok? <==> && inv.Ok? && "INSTALLATION_UUID" in inv.value && "PRODUCT_VERSION" in inv.value
                       && ProductRelease(inv.value).Some?
    ensures r.Ok? ==> var inv := Inventory(Text.SplitLines(inventoryText)).value;
                      && fresh(r.value) && r.value.plane == plane && r.value.address == address
                      && r.value.credentials == HostData(address, hosts, defaultUser, defaultPassword)
                      && r.value.pool == pool && r.value.mainSr == mainSr
                      && r.value.uuid == inv["INSTALLATION_UUID"] && r.value.release == ProductRelease(inv).value
                      && r.value.savedPackages.None? && r.value.savedRollbackId.None?
  {
    var credentials := HostData(address, hosts, defaultUser, defaultPassword);
    var inventory := GetXensourceInventory(inventoryText);
    if inventory.Err? {
      return Err(inventory.msg);
    }
    if "INSTALLATION_UUID" !in inventory.value {
      return Err("KeyError: 'INSTALLATION_UUID'");
    }
    if "PRODUCT_VERSION" !in inventory.value {
      return Err("KeyError: 'PRODUCT_VERSION'");
    }
    var release := ProductRelease(inventory.value);
    if release.None? {
      return Err("InvalidVersion");
    }
    var host := new Host(plane, address, credentials, pool, inventory.value["INSTALLATION_UUID"], release.value, mainSr);
    r := Ok(host);
  }
}
