/**
  conftest.py, the fixtures every test builds on: the `hosts` list (with
  nested hosts provisioned from the VM cache), the VMs a test declares in its
  `vm_definitions` marker (created step by step, tracked as they appear, torn
  down in a fixed order, and exported to the cache when the test passed), the
  disk fixtures that pick devices free on every pool member, `vm_ref` and
  `imported_vm`.  pytest itself (markers, stash, scopes) is reduced to the
  values it hands the fixtures.
*/
module Fixtures {
  import opened Wrappers
  import Text
  import LegacyCommon
  import opened ManagementPlane
  import opened HostHandle
  import opened VmHandle

  // ---------------------------------------------------------------- the --hosts option

  /** `--hosts` values split on ',' and chained, in order. */
  function HostList(args: seq<string>): (r: seq<string>)
    ensures forall i :: 0 <= i < |r| ==> ',' !in r[i]
    decreases |args|
  {
    if args == [] then []
    else HostList(args[..|args| - 1]) + Text.Split(args[|args| - 1], ',')
  }

  /** Chaining respects concatenation of the option values. */
  lemma {:induction false} HostListConcat(a: seq<string>, b: seq<string>)
    ensures HostList(a + b) == HostList(a) + HostList(b)
    decreases |b|
  {
    if b == [] {
      assert a + b == a;
    } else {
      var init := b[..|b| - 1];
      assert (a + b)[..|a + b| - 1] == a + init;
      assert (a + b)[|a + b| - 1] == b[|b| - 1];
      HostListConcat(a, init);
    }
  }

  /** Each value contributes at least one entry: the list is empty exactly when no `--hosts` is given. */
  lemma {:induction false} HostListEmpty(args: seq<string>)
    ensures |HostList(args)| >= |args|
    ensures HostList(args) == [] <==> args == []
    decreases |args|
  {
    if args != [] {
      HostListEmpty(args[..|args| - 1]);
    }
  }

  /** One value listing comma-free host names, joined with ',', gives those names back. */
  lemma HostListOfJoined(hosts: seq<string>)
    requires |hosts| >= 1 && forall i :: 0 <= i < |hosts| ==> ',' !in hosts[i]
    ensures HostList([Text.Join(hosts, ',')]) == hosts
  {
    Text.SplitJoin(hosts, ',');
    assert [Text.Join(hosts, ',')][..0] == [];
  }

  const NoHosts := "Failed: This test requires at least one --hosts parameter"

  /** A `--hosts` entry naming a nested host to provision from the VM cache. */
  predicate IsCacheEntry(entry: string)
  {
    LegacyCommon.StartsWith(entry, "cache://")
  }

  /** Splitting "<word>:<rest>" at its first ':' gives the word and the rest when the word has no ':'. */
  lemma {:induction false} SplitAtWord(word: string, rest: string)
    requires ':' !in word
    ensures Text.SplitOnce(word + ":" + rest, ':') == Ok((word, rest))
  {
    var s := word + ":" + rest;
    assert s[|word|] == ':';
    var parts := Text.SplitOnce(s, ':');
    var a := parts.value.0;
    assert a == s[..|a|] == word;
    assert parts.value.1 == s[|a| + 1..] == rest;
  }

  /** A "cache://..." entry splits at its first ':' into "cache" and a rest that starts with "//". */
  lemma CacheEntryRest(entry: string)
    requires IsCacheEntry(entry)
    ensures Text.SplitOnce(entry, ':') == Ok(("cache", entry[6..]))
    ensures LegacyCommon.StartsWith(entry[6..], "//")
  {
    assert entry == "cache" + ":" + entry[6..];
    SplitAtWord("cache", entry[6..]);
    assert entry[6..][..2] == entry[6..8];
  }

  /** A URI "clone:<rest>" with `rest` starting with "//" is a clone URI. */
  lemma CloneUriOf(rest: string)
    requires LegacyCommon.StartsWith(rest, "//")
    ensures IsCloneUri("clone:" + rest)
  {
    var uri := "clone:" + rest;
    assert LegacyCommon.StartsWith(uri[5..], "://") by {
      assert uri[5..][..3] == ":" + rest[..2];
    }
    assert uri[5..] == uri[1..][1..][1..][1..][1..];
    assert HasInfix(uri[1..][1..][1..][1..][1..], "://");
    assert HasInfix(uri[1..][1..][1..][1..], "://");
    assert HasInfix(uri[1..][1..][1..], "://");
    assert HasInfix(uri[1..][1..], "://");
    assert HasInfix(uri[1..], "://");
    assert uri[..5] == "clone";
  }

  /**
    For a nested host, `import_vm("clone:<rest>", sr, use_cache=True)` with
    `rest` starting with "//" and an SR at hand is served by a fresh clone of
    a cached VM or by a real import: never refused, never an existing VM.
  */
  lemma NestedImportRoute(w: World, rest: string, sr: Uuid, h: Helpers)
    requires Valid(w) && LegacyCommon.StartsWith(rest, "//")
    ensures var route := ImportRoute(w, "clone:" + rest, Some(sr), true, h);
            route.CloneCached? || route.Import?
  {
    CloneUriOf(rest);
    assert "clone:" + rest == "clone" + ":" + rest;
    SplitAtWord("clone", rest);
    CachedVmLookup(w, VmCacheKey(rest[2..], h), Some(sr));
  }

  /** The import of a nested host's VM: a VM that did not exist before. */
  method ImportNested(host: Host, rest: string, h: Helpers) returns (r: Result<Uuid>)
    requires Valid(host.plane.world) && host.mainSr.Some? && LegacyCommon.StartsWith(rest, "//")
    modifies host.plane
    ensures Valid(host.plane.world)
    ensures r.Ok? ==> r.value !in old(host.plane.world).vms && r.value in host.plane.world.vms
  {
    NestedImportRoute(host.plane.world, rest, host.mainSr.value, h);
    r := host.ImportVm("clone:" + rest, host.mainSr, true, h);
  }

  /**
    `vm.destroy()` for each VM of `uuids` in order, up to the first failure.
    On success exactly those VMs are gone, each of them existed, and no VDI
    appears.
  */
  method DestroyEach(host: Host, uuids: seq<Uuid>) returns (r: Result<()>)
    requires Valid(host.plane.world)
    modifies host.plane
    ensures Valid(host.plane.world) && Extends(old(host.plane.log), host.plane.log)
    ensures uuids == [] ==> r.Ok? && host.plane.world == old(host.plane.world) && host.plane.log == old(host.plane.log)
    ensures r.Ok? ==> && (forall v :: v in uuids ==> v in old(host.plane.world).vms)
                      && host.plane.world.vms.Keys == old(host.plane.world).vms.Keys - Members(uuids)
                      && host.plane.world.vdis.Keys <= old(host.plane.world).vdis.Keys
  {
    var plane := host.plane;
    ghost var w0, log0 := plane.world, plane.log;
    var i := 0;
    while i < |uuids|
      invariant i <= |uuids|
      invariant Valid(plane.world) && Extends(log0, plane.log)
      invariant i == 0 ==> plane.world == w0 && plane.log == log0
      invariant forall j :: 0 <= j < i ==> uuids[j] in w0.vms
      invariant plane.world.vms.Keys == w0.vms.Keys - Members(uuids[..i])
      invariant plane.world.vdis.Keys <= w0.vdis.Keys
    {
      ghost var logI := plane.log;
      var handle := new Vm(uuids[i], host);
      var destroyed := handle.Destroy();
      ExtendsTrans(log0, logI, plane.log);
      if destroyed.Err? {
        return Err(destroyed.msg);
      }
      assert uuids[..i + 1] == uuids[..i] + [uuids[i]];
      i := i + 1;
    }
    assert uuids[..i] == uuids;
    if uuids == [] {
      assert log0[..|log0|] == log0;
    }
    r := Ok(());
  }

  /**
    The state of the session-wide `hosts` fixture: the nest host (the master
    of `--nest`, none when the option is empty) and `nested_list`, the nested
    host VMs made on it so far.  The DHCP server's view is `arp`: the
    addresses it has seen for the MAC of a given VIF.
  */
  class HostsFixture {
    const nest: Option<Host>
    var nested: seq<Uuid>

    constructor (nest: Option<Host>)
      ensures this.nest == nest && nested == []
    {
      this.nest := nest;
      nested := [];
    }

    /** The management plane the nested VMs live on, when there is a nest. */
    function Planes(): set<object>
    {
      if nest.Some? then {nest.value.plane} else {}
    }

    /** The nest's plane is well formed, and nested VMs only exist with a nest. */
    ghost predicate Ready()
      reads this, Planes()
    {
      && (nest.Some? ==> Valid(nest.value.plane.world))
      && (nested != [] ==> nest.Some?)
    }

    /**
      `setup_host(hostname_or_ip)`: a plain entry is the host's address as
      given, and nothing is sent.  A "cache://<rest>" entry needs the nest and
      its main SR; the nest imports "clone:<rest>" through the cache, the new
      VM is tracked at once, then started, and its one address (as seen for
      the MAC of its first VIF) becomes the host's address.
    */
    method SetupHost(entry: string, h: Helpers, arp: Uuid -> seq<string>) returns (r: Result<string>)
      requires Ready()
      modifies this, Planes()
      ensures Ready() && Extends(old(nested), nested) && |nested| <= |old(nested)| + 1
      ensures nested != old(nested) ==> nest.Some? && nested[|nested| - 1] !in old(nest.value.plane.world).vms
      ensures !IsCacheEntry(entry) || nest.None? || nest.value.mainSr.None? ==>
                && nested == old(nested)
                && (nest.Some? ==> nest.value.plane.world == old(nest.value.plane.world)
                                   && nest.value.plane.log == old(nest.value.plane.log))
      ensures !IsCacheEntry(entry) ==> r == Ok(entry)
      ensures IsCacheEntry(entry) && (nest.None? || nest.value.mainSr.None?) ==> r.Err?
      ensures IsCacheEntry(entry) && r.Ok? ==>
                && nest.Some? && |nested| == |old(nested)| + 1
                && var w, v := nest.value.plane.world, nested[|nested| - 1];
                && v in w.vms && w.vms[v].power == Running && w.vms[v].vifs != []
                && arp(w.vms[v].vifs[0]) == [r.value]
    {
      if !IsCacheEntry(entry) {
        return Ok(entry);
      }
      if nest.None? {
        return Err("Failed: --hosts=cache://... requires --nest parameter");
      }
      var host := nest.value;
      if host.mainSr.None? {
        return Err(NoMainSr);
      }
      var parts := Text.SplitOnce(entry, ':');
      CacheEntryRest(entry);
      var vm := ImportNested(host, parts.value.1, h);
      if vm.Err? {
        ExtendsAppend(nested, []);
        return Err(vm.msg);
      }
      ExtendsAppend(nested, [vm.value]);
      nested := nested + [vm.value];
      if host.plane.world.vms[vm.value].vifs == [] {
        return Err("IndexError: list index out of range");
      }
      var vif := host.plane.world.vms[vm.value].vifs[0];
      var started := host.plane.Start(vm.value);
      if started.Err? {
        return Err(started.msg);
      }
      var ips := arp(vif);
      if |ips| != 1 {
        return Err("AssertionError");
      }
      r := Ok(ips[0]);
    }

    /** `cleanup_hosts()`: every nested host VM destroyed in order, up to the first failure. */
    method CleanupHosts() returns (r: Result<()>)
      requires Ready()
      modifies Planes()
      ensures Ready()
      ensures nested == [] ==>
                r.Ok? && (nest.Some? ==> nest.value.plane.world == old(nest.value.plane.world)
                                         && nest.value.plane.log == old(nest.value.plane.log))
      ensures r.Ok? && nest.Some? ==>
                nest.value.plane.world.vms.Keys == old(nest.value.plane.world).vms.Keys - Members(nested)
    {
      if nest.None? {
        return Ok(());
      }
      r := DestroyEach(nest.value, nested);
    }

    /**
      The `hosts` fixture: the `--hosts` values split on ',' and chained, each
      entry set up in order.  When a setup raises an exception, the nested host
      VMs made so far are cleaned up before it propagates (a missing `--nest`
      is a pytest failure, which that handler does not catch; no nested VM
      exists then).  No entry at all fails the session.  `cleanup` is the
      outcome of that clean-up, when it ran.
    */
    method Hosts(args: seq<string>, h: Helpers, arp: Uuid -> seq<string>)
      returns (r: Result<seq<string>>, cleanup: Result<()>)
      requires Ready() && nested == []
      modifies this, Planes()
      ensures Ready()
      ensures var list := HostList(args);
              && (r.Ok? ==> && |r.value| == |list| > 0
                            && forall i :: 0 <= i < |list| && !IsCacheEntry(list[i]) ==> r.value[i] == list[i])
              && ((forall i :: 0 <= i < |list| ==> !IsCacheEntry(list[i])) ==>
                    && r == (if list == [] then Err(NoHosts) else Ok(list)) && nested == old(nested)
                    && (nest.Some? ==> nest.value.plane.world == old(nest.value.plane.world)
                                       && nest.value.plane.log == old(nest.value.plane.log)))
      ensures cleanup.Err? ==> r.Err?
      ensures r.Err? && cleanup.Ok? && nest.Some? ==> forall v :: v in nested ==> v !in nest.value.plane.world.vms
    {
      var list := HostList(args);
      var hosts: seq<string> := [];
      cleanup := Ok(());
      var i := 0;
      while i < |list|
        invariant i <= |list| && |hosts| == i
        invariant Ready()
        invariant forall j :: 0 <= j < i && !IsCacheEntry(list[j]) ==> hosts[j] == list[j]
        invariant (forall j :: 0 <= j < i ==> !IsCacheEntry(list[j])) ==>
                    && hosts == list[..i] && nested == old(nested)
                    && (nest.Some? ==> nest.value.plane.world == old(nest.value.plane.world)
                                       && nest.value.plane.log == old(nest.value.plane.log))
      {
        var entry := SetupHost(list[i], h, arp);
        if entry.Err? {
          if IsCacheEntry(list[i]) && nest.None? {
            return Err(entry.msg), cleanup;
          }
          cleanup := CleanupHosts();
          if cleanup.Err? {
            return Err(cleanup.msg), cleanup;
          }
          return Err(entry.msg), cleanup;
        }
        hosts := hosts + [entry.value];
        i := i + 1;
      }
      if list == [] {
        return Err(NoHosts), cleanup;
      }
      assert list[..i] == list;
      r := Ok(hosts);
    }
  }

  // ---------------------------------------------------------------- vm_definitions

  /** The assertions `create_vms` makes on a definition: a name, and a template or a cached test image but not both. */
  predicate Accepted(d: VmDef)
  {
    d.name.Some? && (d.template.Some? || d.imageTest.Some?) && !(d.template.Some? && d.imageTest.Some?)
  }

  /**
    The validation loop of `create_vms`: without a `vm_definitions` marker it
    raises; otherwise each definition is checked in turn and the first refused
    one raises, else the definitions are kept in order.
  */
  method ValidateDefs(marker: Option<seq<VmDef>>) returns (r: Result<seq<VmDef>>)
    ensures marker.None? ==> r.Err?
    ensures r.Ok? <==> marker.Some? && forall i :: 0 <= i < |marker.value| ==> Accepted(marker.value[i])
    ensures r.Ok? ==> r.value == marker.value
  {
    if marker.None? {
      return Err("Exception: No vm_definitions marker specified.");
    }
    var defs := marker.value;
    var kept: seq<VmDef> := [];
    var i := 0;
    while i < |defs|
      invariant 0 <= i <= |defs|
      invariant kept == defs[..i]
      invariant forall j :: 0 <= j < i ==> Accepted(defs[j])
    {
      var d := defs[i];
      if d.name.None? || (d.template.None? && d.imageTest.None?) || (d.template.Some? && d.imageTest.Some?) {
        return Err("AssertionError");
      }
      kept := kept + [d];
      i := i + 1;
    }
    assert defs[..i] == defs;
    r := Ok(kept);
  }

  /** A definition is accepted exactly when it has a name and exactly one of a template and a cached test image. */
  lemma AcceptedIsExclusive(d: VmDef)
    ensures Accepted(d) <==> d.name.Some? && (d.template.Some? != d.imageTest.Some?)
  {
  }

  /** `_vm_name`: the definition's name and the test's node id. */
  function VmName(name: string, nodeid: string): string
  {
    name + " in " + nodeid
  }

  // ---------------------------------------------------------------- phase reports and the cache gate

  /** A pytest phase report's outcome. */
  datatype Outcome = Passed | Failed | Skipped

  /** The reports stashed on a test item, by phase ("setup", "call", "teardown"). */
  type PhaseReports = map<string, Outcome>

  /** `pytest_runtest_makereport`: the item's stash (none before any phase) gets this phase's report. */
  function RecordPhase(stash: Option<PhaseReports>, when: string, rep: Outcome): (r: PhaseReports)
    ensures when in r && r[when] == rep
    ensures forall k :: k != when ==> (k in r <==> stash.Some? && k in stash.value)
    ensures forall k :: k != when && k in r ==> r[k] == stash.value[k]
  {
    (if stash.Some? then stash.value else map[])[when := rep]
  }

  /**
    The export decision of `create_vms` as written: no reports, a failed setup,
    a missing call report or a failed call means no export.  A report is
    "failed" only for a failure, so a skipped call still exports.
  */
  function ExportGateAsWritten(report: Option<PhaseReports>): Result<bool>
  {
    if report.None? then Ok(false)
    else if "setup" !in report.value then Err("KeyError: 'setup'")
    else if report.value["setup"] == Failed then Ok(false)
    else if "call" !in report.value || report.value["call"] == Failed then Ok(false)
    else Ok(true)
  }

  /** A test whose call phase is skipped passes the gate as written, although its log says it does not export. */
  lemma SkippedCallExports()
    ensures ExportGateAsWritten(Some(map["setup" := Passed, "call" := Skipped])) == Ok(true)
  {
  }

  /** The export decision as its messages describe it: only a setup and a call that both passed export. */
  function ExportGate(report: Option<PhaseReports>): (r: Result<bool>)
    ensures r.Err? <==> report.Some? && "setup" !in report.value
    ensures r == Ok(true) <==>
              report.Some? && "setup" in report.value && report.value["setup"] == Passed
              && "call" in report.value && report.value["call"] == Passed
  {
    if report.None? then Ok(false)
    else if "setup" !in report.value then Err("KeyError: 'setup'")
    else if report.value["setup"] != Passed then Ok(false)
    else if "call" !in report.value || report.value["call"] != Passed then Ok(false)
    else Ok(true)
  }

  /** The two gates differ exactly on reports with a skipped phase and no failed one. */
  lemma GatesDiffer(report: Option<PhaseReports>)
    ensures ExportGate(report) != ExportGateAsWritten(report) <==>
              report.Some? && "setup" in report.value && "call" in report.value
              && report.value["setup"] != Failed && report.value["call"] != Failed
              && (report.value["setup"] == Skipped || report.value["call"] == Skipped)
  {
  }

  /** After the setup and call reports are recorded, the gate opens exactly when both passed. */
  lemma GateAfterPhases(setup: Outcome, call: Outcome)
    ensures ExportGate(Some(RecordPhase(Some(RecordPhase(None, "setup", setup)), "call", call)))
            == Ok(setup == Passed && call == Passed)
  {
    var rep := RecordPhase(Some(RecordPhase(None, "setup", setup)), "call", call);
    assert rep["setup"] == setup;
  }

  // ---------------------------------------------------------------- disk fixtures

  /**
    `sr_disk` (and `sr_disk_4k`, with the 4 KiB listing): the one `--sr-disk`
    value, "auto" for the first available disk of the master, else a disk that
    must be available there.  `available` is the master's `available_disks()`.
  */
  function SrDisk(option: seq<string>, available: seq<string>): (r: Result<string>)
    ensures r.Ok? <==> |option| == 1 && (if option[0] == "auto" then available != [] else option[0] in available)
    ensures r.Ok? ==> r.value in available
    ensures r.Ok? && option[0] == "auto" ==> r.value == available[0]
    ensures r.Ok? && option[0] != "auto" ==> r.value == option[0]
  {
    if |option| != 1 then Err("Failed: This test requires exactly one --sr-disk parameter")
    else if option[0] == "auto" then
      if available == [] then Err("AssertionError: a free disk device is required on the master host")
      else Ok(available[0])
    else if option[0] in available then Ok(option[0])
    else Err("AssertionError: disk or block device " + option[0]
             + " is either not present or already used on master host")
  }

  /** Whether disk `d` is available on every host of `others`. */
  predicate OnAll(d: string, others: seq<seq<string>>)
  {
    forall k :: 0 <= k < |others| ==> d in others[k]
  }

  /** The candidates available on every other host, in candidate order: the reference definition. */
  function Shared(c: seq<string>, others: seq<seq<string>>): (r: seq<string>)
    ensures forall d :: d in r <==> d in c && OnAll(d, others)
    ensures |r| <= |c|
  {
    if c == [] then []
    else (if OnAll(c[0], others) then [c[0]] else []) + Shared(c[1..], others)
  }

  /** The candidates that one more host also has. */
  function Keep(c: seq<string>, other: seq<string>): seq<string>
  {
    if c == [] then [] else (if c[0] in other then [c[0]] else []) + Keep(c[1..], other)
  }

  /** The candidates after narrowing by each host of `others` in turn, as the fixtures' loops do. */
  function Narrow(c: seq<string>, others: seq<seq<string>>): seq<string>
    decreases |others|
  {
    if others == [] then c else Keep(Narrow(c, others[..|others| - 1]), others[|others| - 1])
  }

  lemma {:induction false} SharedOfNone(c: seq<string>)
    ensures Shared(c, []) == c
  {
    if c != [] {
      SharedOfNone(c[1..]);
      assert [c[0]] + c[1..] == c;
    }
  }

  lemma {:induction false} KeepShared(c: seq<string>, init: seq<seq<string>>, last: seq<string>)
    ensures Keep(Shared(c, init), last) == Shared(c, init + [last])
  {
    if c != [] {
      KeepShared(c[1..], init, last);
      assert OnAll(c[0], init + [last]) <==> OnAll(c[0], init) && c[0] in last by {
        if OnAll(c[0], init) && c[0] in last {
          forall k | 0 <= k < |init + [last]| ensures c[0] in (init + [last])[k] {
            if k < |init| {
              assert (init + [last])[k] == init[k];
            }
          }
        }
        if OnAll(c[0], init + [last]) {
          assert (init + [last])[|init|] == last;
          forall k | 0 <= k < |init| ensures c[0] in init[k] {
            assert (init + [last])[k] == init[k];
          }
        }
      }
      var s := Shared(c, init);
      if OnAll(c[0], init) {
        assert s == [c[0]] + Shared(c[1..], init);
        assert s[0] == c[0] && s[1..] == Shared(c[1..], init);
      } else {
        assert s == Shared(c[1..], init);
      }
    }
  }

  /** Narrowing host by host keeps exactly the candidates every host has, in order. */
  lemma {:induction false} NarrowIsShared(c: seq<string>, others: seq<seq<string>>)
    ensures Narrow(c, others) == Shared(c, others)
    decreases |others|
  {
    if others == [] {
      SharedOfNone(c);
    } else {
      var init := others[..|others| - 1];
      NarrowIsShared(c, init);
      KeepShared(c, init, others[|others| - 1]);
      assert init + [others[|others| - 1]] == others;
    }
  }

  /** The first shared candidate is the earliest candidate available on every host. */
  lemma {:induction false} SharedFirst(c: seq<string>, others: seq<seq<string>>, j: nat)
    requires j < |c| && OnAll(c[j], others)
    ensures Shared(c, others) != []
    ensures exists k :: 0 <= k <= j && c[k] == Shared(c, others)[0] && OnAll(c[k], others)
    ensures forall k :: 0 <= k < |c| && c[k] == Shared(c, others)[0] ==> OnAll(c[k], others)
  {
    assert c[j] in Shared(c, others);
    if !OnAll(c[0], others) {
      SharedFirst(c[1..], others, j - 1);
      var k :| 0 <= k <= j - 1 && c[1..][k] == Shared(c[1..], others)[0] && OnAll(c[1..][k], others);
      assert c[k + 1] == Shared(c, others)[0];
    } else {
      assert c[0] == Shared(c, others)[0];
    }
  }

  /** When every candidate survives, the first one is on every host and the others all survive. */
  lemma SharedHead(c: seq<string>, others: seq<seq<string>>)
    requires c != [] && |Shared(c, others)| == |c|
    ensures OnAll(c[0], others) && Shared(c, others) == [c[0]] + Shared(c[1..], others)
    ensures |Shared(c[1..], others)| == |c| - 1
  {
    assert |Shared(c[1..], others)| <= |c| - 1;
  }

  /** When every candidate survives, every candidate is available on every host. */
  lemma {:induction false} SharedAll(c: seq<string>, others: seq<seq<string>>)
    requires |Shared(c, others)| == |c|
    ensures Shared(c, others) == c
    ensures forall i :: 0 <= i < |c| ==> OnAll(c[i], others)
  {
    if c != [] {
      SharedHead(c, others);
      SharedAll(c[1..], others);
      assert [c[0]] + c[1..] == c;
      forall i | 1 <= i < |c| ensures OnAll(c[i], others) {
        assert c[1..][i - 1] == c[i];
      }
    }
  }

  /** The narrowing loop: `candidates = [d for d in candidates if d in other_disks]` for each other host. */
  method NarrowCandidates(start: seq<string>, others: seq<seq<string>>) returns (c: seq<string>)
    ensures c == Shared(start, others)
  {
    c := start;
    var i := 0;
    while i < |others|
      invariant 0 <= i <= |others|
      invariant c == Narrow(start, others[..i])
    {
      var kept: seq<string> := [];
      var j := 0;
      while j < |c|
        invariant 0 <= j <= |c|
        invariant kept + Keep(c[j..], others[i]) == Keep(c, others[i])
      {
        assert c[j..] == [c[j]] + c[j + 1..];
        if c[j] in others[i] {
          kept := kept + [c[j]];
        }
        j := j + 1;
      }
      assert others[..i + 1][..i] == others[..i];
      c := kept;
      i := i + 1;
    }
    assert others[..i] == others;
    NarrowIsShared(start, others);
  }

  /** The disks `sr_disk_for_all_hosts` starts from: every master disk for "auto", else the one named. */
  function Chosen(disk: string, master: seq<string>): seq<string>
  {
    if disk == "auto" then master else [disk]
  }

  /**
    `sr_disk_for_all_hosts`: the first disk among the starting ones (every
    disk available on the master, or the named one, which must be among them)
    that every other pool member also has available.  `master` and `others`
    are the members' `available_disks()`.
  */
  method SrDiskForAllHosts(option: seq<string>, master: seq<string>, others: seq<seq<string>>)
    returns (r: Result<string>)
    ensures r.Ok? <==> && |option| == 1 && master != [] && (option[0] != "auto" ==> option[0] in master)
                       && Shared(Chosen(option[0], master), others) != []
    ensures r.Ok? ==> r.value == Shared(Chosen(option[0], master), others)[0]
  {
    if |option| != 1 {
      return Err("Failed: This test requires exactly one --sr-disk parameter");
    }
    var disk := option[0];
    if master == [] {
      return Err("AssertionError: a free disk device is required on the master host");
    }
    var start := master;
    if disk != "auto" {
      if disk !in master {
        return Err("AssertionError: disk or block device " + disk
                   + " is either not present or already used on master host");
      }
      start := [disk];
    }
    var candidates := NarrowCandidates(start, others);
    if candidates == [] {
      return Err("AssertionError: no disk was found to be present and free on all hosts");
    }
    r := Ok(candidates[0]);
  }

  /**
    What the chosen disk is: available on the master and on every other
    member, the named one if a disk is named, and otherwise no master disk
    listed before it is available everywhere.
  */
  lemma SrDiskForAllHostsMeaning(disk: string, master: seq<string>, others: seq<seq<string>>)
    requires Shared(Chosen(disk, master), others) != [] && (disk != "auto" ==> disk in master)
    ensures var d := Shared(Chosen(disk, master), others)[0];
            && d in master && OnAll(d, others)
            && (disk != "auto" ==> d == disk)
            && (disk == "auto" ==> forall j :: 0 <= j < |master| && OnAll(master[j], others) ==>
                                     exists k :: 0 <= k <= j && master[k] == d)
  {
    var d := Shared(Chosen(disk, master), others)[0];
    assert d in Shared(Chosen(disk, master), others);
    if disk == "auto" {
      forall j | 0 <= j < |master| && OnAll(master[j], others)
        ensures exists k :: 0 <= k <= j && master[k] == d
      {
        SharedFirst(master, others, j);
      }
    }
  }

  /**
    `sr_disks_for_all_hosts`: with "auto" among the values, every master disk
    that all other members have (at least one); otherwise the named disks,
    each of which must be available on the master and all of which must be
    available on every other member.
  */
  method SrDisksForAllHosts(option: seq<string>, master: seq<string>, others: seq<seq<string>>)
    returns (r: Result<seq<string>>)
    ensures var start := if "auto" in option then master else option;
            r.Ok? <==> && option != [] && master != []
                       && ("auto" !in option ==> forall i :: 0 <= i < |option| ==> option[i] in master)
                       && (if "auto" in option then Shared(start, others) != []
                           else |Shared(start, others)| == |option|)
    ensures r.Ok? ==> r.value == Shared(if "auto" in option then master else option, others)
  {
    if option == [] {
      return Err("AssertionError: This test requires at least one --sr-disk parameter");
    }
    if master == [] {
      return Err("AssertionError: a free disk device is required on the master host");
    }
    var start := master;
    if "auto" !in option {
      var i := 0;
      while i < |option|
        invariant 0 <= i <= |option|
        invariant forall j :: 0 <= j < i ==> option[j] in master
      {
        if option[i] !in master {
          return Err("AssertionError: Disk or block device " + option[i]
                     + " is either not present or already used on the master host");
        }
        i := i + 1;
      }
      start := option;
    }
    var candidates := NarrowCandidates(start, others);
    if "auto" in option {
      if candidates == [] {
        return Err("AssertionError: Free disk devices are required on all pool members.");
      }
    } else if |candidates| != |option| {
      return Err("AssertionError: Some specified disks are not free or available on all hosts.");
    }
    r := Ok(candidates);
  }

  /** Without "auto", success means exactly the named disks, each available on every member. */
  lemma SrDisksNamedMeaning(option: seq<string>, others: seq<seq<string>>)
    requires |Shared(option, others)| == |option|
    ensures Shared(option, others) == option
    ensures forall i :: 0 <= i < |option| ==> OnAll(option[i], others)
  {
    SharedAll(option, others);
  }

  // ---------------------------------------------------------------- vm_ref

  const DefaultVmRef := "mini-linux-x86_64-bios"

  /**
    `vm_ref`: the `--vm` value, else the test's `default_vm` marker, else the
    global default; a UUID or an http URL is kept, anything else is an image
    key resolved by `vm_image`.
  */
  function VmRef(param: Option<string>, marker: Option<string>, isUuid: string -> bool,
                 images: map<string, string>, defUrl: string): (r: Result<string>)
    ensures var ref := if param.Some? then param.value else if marker.Some? then marker.value else DefaultVmRef;
            && (isUuid(ref) || LegacyCommon.StartsWith(ref, "http") ==> r == Ok(ref))
            && (!isUuid(ref) && !LegacyCommon.StartsWith(ref, "http") ==> (r.Err? <==> ref !in images))
  {
    var ref := if param.Some? then param.value else if marker.Some? then marker.value else DefaultVmRef;
    if isUuid(ref) || LegacyCommon.StartsWith(ref, "http") then Ok(ref)
    else LegacyCommon.VmImage(ref, images, defUrl)
  }

  /** With an http default location, a resolved reference passed again as `--vm` resolves to itself. */
  lemma VmRefSettles(param: Option<string>, marker: Option<string>, isUuid: string -> bool,
                     images: map<string, string>, defUrl: string, again: Option<string>)
    requires LegacyCommon.StartsWith(defUrl, "http")
    requires VmRef(param, marker, isUuid, images, defUrl).Ok?
    ensures var ref := VmRef(param, marker, isUuid, images, defUrl).value;
            VmRef(Some(ref), again, isUuid, images, defUrl) == Ok(ref)
  {
  }

  // ---------------------------------------------------------------- create_vms

  /**
    The network of a definition's VIF: given by UUID or by name (looked up with
    `network_named`), exactly one of the two given and non-empty, and the name
    must be found.
  */
  function VifNetwork(d: VifDef, networkNamed: string -> Option<string>): (r: Result<string>)
    ensures r.Ok? ==> r.value != ""
  {
    var byUuid := d.networkUuid.Some? && d.networkUuid.value != "";
    var byName := d.networkName.Some? && d.networkName.value != "";
    if byUuid == byName then Err("AssertionError: create_vif needs network_uuid XOR network_name")
    else
      var uuid := if byName then networkNamed(d.networkName.value) else d.networkUuid;
      if uuid.None? || uuid.value == "" then Err("AssertionError: No UUID given, and network name not found")
      else Ok(uuid.value)
  }

  /**
    A VIF entry is accepted exactly when one of network UUID and network name
    is given (non-empty), and a given name is found; a given UUID is used as is.
  */
  lemma VifNetworkOk(d: VifDef, networkNamed: string -> Option<string>)
    ensures var r := VifNetwork(d, networkNamed);
            var byUuid := d.networkUuid.Some? && d.networkUuid.value != "";
            var byName := d.networkName.Some? && d.networkName.value != "";
            var named := if byName then networkNamed(d.networkName.value) else None;
            && (r.Ok? <==> byUuid != byName && (byName ==> named.Some? && named.value != ""))
            && (r.Ok? && byUuid ==> r.value == d.networkUuid.value)
            && (r.Ok? && byName ==> r.value == named.value)
  {
  }

  /** `log0` followed by the first `k` commands of a plan, `k` positive, is a logged prefix of it. */
  lemma LoggedTake(log0: seq<Command>, plan: seq<Command>, k: nat)
    requires 0 < k <= |plan|
    ensures LoggedPrefix(log0, log0 + plan[..k], plan)
  {
  }

  /**
    The loop of `AddVifs` after `i` entries: each network resolved, no
    fault in their `vif-create`s (on a VM that exists, `known`), and these
    logged in order after `log0`.
  */
  ghost predicate VifsLogged(log0: seq<Command>, log: seq<Command>, faults: set<nat>, known: bool,
                             vm: Uuid, defs: seq<VifDef>, networkNamed: string -> Option<string>, i: nat)
  {
    && i <= |defs|
    && (forall j :: 0 <= j < i ==> VifNetwork(defs[j], networkNamed).Ok?)
    && (i > 0 ==> known && NoFaults(faults, |log0|, i))
    && log == log0 + VifCreates(vm, defs, networkNamed)[..i]
  }

  lemma VifsLoggedNext(log0: seq<Command>, logI: seq<Command>, log: seq<Command>, faults: set<nat>, known: bool,
                       vm: Uuid, defs: seq<VifDef>, networkNamed: string -> Option<string>, i: nat)
    requires VifsLogged(log0, logI, faults, known, vm, defs, networkNamed, i) && i < |defs|
    requires VifNetwork(defs[i], networkNamed).Ok? && known && |logI| !in faults
    requires log == logI + [VifCommand(vm, defs[i], networkNamed)]
    ensures VifsLogged(log0, log, faults, known, vm, defs, networkNamed, i + 1)
  {
    TakeSnoc(log0, VifCreates(vm, defs, networkNamed), i);
    NoFaultsSplit(faults, |log0|, i, 1);
  }

  lemma VifsLoggedStop(log0: seq<Command>, logI: seq<Command>, log: seq<Command>, faults: set<nat>, known: bool,
                       vm: Uuid, defs: seq<VifDef>, networkNamed: string -> Option<string>, i: nat)
    requires VifsLogged(log0, logI, faults, known, vm, defs, networkNamed, i) && i < |defs|
    requires log == logI + (if VifNetwork(defs[i], networkNamed).Ok? then [VifCommand(vm, defs[i], networkNamed)] else [])
    requires !(VifNetwork(defs[i], networkNamed).Ok? && known && |logI| !in faults)
    ensures !(&& (forall j :: 0 <= j < |defs| ==> VifNetwork(defs[j], networkNamed).Ok?)
              && (defs == [] || (known && NoFaults(faults, |log0|, |defs|))))
    ensures LoggedPrefix(log0, log, VifCreates(vm, defs, networkNamed)) || log == log0
  {
    var plan := VifCreates(vm, defs, networkNamed);
    if VifNetwork(defs[i], networkNamed).Ok? {
      TakeSnoc(log0, plan, i);
      LoggedTake(log0, plan, i + 1);
    } else if i > 0 {
      LoggedTake(log0, plan, i);
    }
  }

  lemma VifsLoggedDone(log0: seq<Command>, log: seq<Command>, faults: set<nat>, known: bool,
                       vm: Uuid, defs: seq<VifDef>, networkNamed: string -> Option<string>)
    requires VifsLogged(log0, log, faults, known, vm, defs, networkNamed, |defs|)
    ensures && (forall j :: 0 <= j < |defs| ==> VifNetwork(defs[j], networkNamed).Ok?)
            && (defs == [] || (known && NoFaults(faults, |log0|, |defs|)))
            && log == log0 + VifCreates(vm, defs, networkNamed)
  {
    var plan := VifCreates(vm, defs, networkNamed);
    assert plan[..|defs|] == plan;
  }

  /** Taking one more element of a sequence, after a prefix. */
  lemma TakeSnoc<T>(a: seq<T>, s: seq<T>, i: nat)
    requires i < |s|
    ensures a + s[..i] + [s[i]] == a + s[..i + 1]
  {
    assert s[..i + 1] == s[..i] + [s[i]];
  }

  /** The parameter a definition's "params" entry sets: `name:key` for a map entry. */
  function ParamName(p: ParamDef): string
  {
    if p.key.Some? then p.paramName + ":" + p.key.value else p.paramName
  }

  /** The commands that set a definition's "params" on `vm`, in order. */
  function ParamSets(vm: Uuid, params: seq<ParamDef>): (c: seq<Command>)
    ensures |c| == |params| && forall i :: 0 <= i < |params| ==> c[i] == VmParamSet(vm, ParamName(params[i]), params[i].value)
  {
    seq(|params|, i requires 0 <= i < |params| => VmParamSet(vm, ParamName(params[i]), params[i].value))
  }

  /** The `vif-create` a definition's "vifs" entry sends, once its network is resolved. */
  function VifCommand(vm: Uuid, d: VifDef, networkNamed: string -> Option<string>): Command
  {
    var network := VifNetwork(d, networkNamed);
    VifCreate(vm, Text.IntToString(d.index), if network.Ok? then network.value else "")
  }

  /** The commands that create a definition's "vifs" on `vm`, in order. */
  function VifCreates(vm: Uuid, defs: seq<VifDef>, networkNamed: string -> Option<string>): (c: seq<Command>)
    ensures |c| == |defs| && forall i :: 0 <= i < |defs| ==> c[i] == VifCommand(vm, defs[i], networkNamed)
  {
    seq(|defs|, i requires 0 <= i < |defs| => VifCommand(vm, defs[i], networkNamed))
  }

  /**
    `w` has the same VMs, VDIs and VBDs as `w0`, and VM `vm` the same disks:
    what adding VIFs or setting parameters leaves alone.
  */
  ghost predicate KeepsDisks(w0: World, w: World, vm: Uuid)
  {
    && w.vms.Keys == w0.vms.Keys && w.vdis == w0.vdis && w.vbds == w0.vbds
    && (vm in w0.vms ==> vm in w.vms && w.vms[vm].disks == w0.vms[vm].disks)
  }

  lemma KeepsDisksTrans(w0: World, w1: World, w2: World, vm: Uuid)
    requires KeepsDisks(w0, w1, vm) && KeepsDisks(w1, w2, vm)
    ensures KeepsDisks(w0, w2, vm)
  {
  }

  /** `vbd-destroy` for each VBD, in order. */
  function VbdDestroys(vbds: seq<Uuid>): (p: seq<Command>)
    ensures |p| == |vbds| && forall i :: 0 <= i < |vbds| ==> p[i] == VbdDestroy(vbds[i])
  {
    seq(|vbds|, i requires 0 <= i < |vbds| => VbdDestroy(vbds[i]))
  }

  /** How many pairs Python's `zip` makes of two lists. */
  function Min(a: nat, b: nat): (r: nat)
    ensures r <= a && r <= b && (r == a || r == b)
  {
    if a < b then a else b
  }

  /** The id the export saves definition `def`'s VM under: "<short node id>-<name>-<git revision>". */
  function ExportId(nodeid: string, def: VmDef, gitref: string, ids: NodeIds): string
    requires def.name.Some?
  {
    CacheId(ids.shortened(nodeid), def.name.value, gitref)
  }

  /** VM `vm` has been saved to the cache under `key`: `w` holds its cached copy (see `CachedSlot`). */
  ghost predicate HasCachedCopy(w: World, vm: Uuid, key: string, sr: Uuid)
  {
    exists w1, c :: CachedSlot(w1, w, vm, c, key, sr)
  }

  /** The UUIDs a tracked list holds. */
  function Members(s: seq<Uuid>): (r: set<Uuid>)
    ensures forall u :: u in r <==> u in s
  {
    set u | u in s
  }

  /** Every key of `now` that `before` lacks is in `tracked`. */
  ghost predicate Covers(before: set<Uuid>, now: set<Uuid>, tracked: seq<Uuid>)
  {
    forall u :: u in now ==> u in before || u in tracked
  }

  /** `b` is `a` with more elements appended: how the tracked lists grow. */
  ghost predicate Extends<T>(a: seq<T>, b: seq<T>)
  {
    |a| <= |b| && b[..|a|] == a
  }

  lemma ExtendsAppend<T>(a: seq<T>, x: seq<T>)
    ensures Extends(a, a + x)
  {
    assert (a + x)[..|a|] == a;
  }

  lemma ExtendsTrans<T>(a: seq<T>, b: seq<T>, c: seq<T>)
    requires Extends(a, b) && Extends(b, c)
    ensures Extends(a, c)
  {
    assert c[..|b|][..|a|] == c[..|a|];
  }

  lemma LoggedPrefixExtends(log0: seq<Command>, log: seq<Command>, plan: seq<Command>)
    requires LoggedPrefix(log0, log, plan)
    ensures Extends(log0, log)
  {
    assert log[..|log0|] == log0;
  }

  lemma CoversTrans(a: set<Uuid>, b: set<Uuid>, c: set<Uuid>, t1: seq<Uuid>, t2: seq<Uuid>)
    requires Covers(a, b, t1) && Covers(b, c, t2) && Extends(t1, t2)
    ensures Covers(a, c, t2)
  {
    forall u | u in c && u !in a && u in t1
      ensures u in t2
    {
      var k :| 0 <= k < |t1| && t1[k] == u;
      assert t2[..|t1|][k] == u;
    }
  }

  /** The commands of an entry of "vdis" whose VDI is minted as `n` (and its VBD as `n + 1`). */
  function DiskPlan(vm: Uuid, d: VdiDef, sr: Uuid, n: Uuid): seq<Command>
  {
    [VdiCreate(d.name, sr, d.size), VbdCreate(vm, Some(n), d.device), VbdParamSet(n + 1, "userdevice", d.userdevice)]
  }

  /**
    After an entry of "vdis": VDI `n` exists on SR `sr` under the entry's name
    and is the last disk of `vm`, plugged by VBD `n + 1` as the entry's device.
  */
  ghost predicate DiskPlugged(w0: World, w: World, vm: Uuid, d: VdiDef, sr: Uuid, n: Uuid)
  {
    && vm in w0.vms && vm in w.vms && n in w.vdis && n + 1 in w.vbds
    && w.vdis[n] == VdiRec(d.name, sr)
    && w.vms[vm].disks == w0.vms[vm].disks + [n]
    && w.vbds[n + 1] == VbdRec(vm, Some(n), d.device, map["userdevice" := d.userdevice])
  }

  /** VM `vm`, if it existed in `w0`, has the disks `added` after its old ones. */
  ghost predicate DisksAdded(w0: World, w: World, vm: Uuid, added: seq<Uuid>)
  {
    vm in w0.vms ==> vm in w.vms && w.vms[vm].disks == w0.vms[vm].disks + added
  }

  lemma DisksAddedNext(w0: World, w1: World, w: World, vm: Uuid, added: seq<Uuid>, n: Uuid, d: VdiDef, sr: Uuid)
    requires DisksAdded(w0, w1, vm, added) && DiskPlugged(w1, w, vm, d, sr, n) && w1.vms.Keys == w0.vms.Keys
    ensures DisksAdded(w0, w, vm, added + [n])
  {
  }

  lemma SplitConcat<T>(a: seq<T>, b: seq<T>)
    ensures (a + b)[..|a|] == a && (a + b)[|a|..] == b
  {
  }

  /** An optional list of a definition, empty when absent. */
  function Listed<T>(o: Option<seq<T>>): seq<T>
  {
    if o.Some? then o.value else []
  }

  /** The number of commands `_create_vm` sends after `vm-install` for a definition. */
  function FurnishCount(def: VmDef): nat
  {
    3 * |Listed(def.vdis)| + (if def.cdVbd.Some? then 2 else 0) + |Listed(def.vifs)| + |Listed(def.params)|
  }

  /** Every VIF entry's network resolves. */
  predicate NetworksResolve(defs: seq<VifDef>, networkNamed: string -> Option<string>)
  {
    forall i :: 0 <= i < |defs| ==> VifNetwork(defs[i], networkNamed).Ok?
  }

  /** `log` is `log0` followed by the first `i` commands of `plan`. */
  ghost predicate Logged(log0: seq<Command>, log: seq<Command>, plan: seq<Command>, i: nat)
  {
    i <= |plan| && log == log0 + plan[..i]
  }

  lemma LoggedStep(log0: seq<Command>, logI: seq<Command>, log: seq<Command>, plan: seq<Command>, i: nat)
    requires Logged(log0, logI, plan, i) && i < |plan| && log == logI + [plan[i]]
    ensures Logged(log0, log, plan, i + 1) && LoggedPrefix(log0, log, plan)
  {
    TakeSnoc(log0, plan, i);
  }

  lemma LoggedAll(log0: seq<Command>, log: seq<Command>, plan: seq<Command>)
    requires Logged(log0, log, plan, |plan|)
    ensures log == log0 + plan
  {
    assert plan[..|plan|] == plan;
  }

  /**
    The objects `create_vms` has created for a test and must remove: the VMs,
    the VDIs and the VBDs, each appended as soon as it exists.
  */
  class CreateVms {
    const host: Host
    var vms: seq<Uuid>
    var vdis: seq<Uuid>
    var vbds: seq<Uuid>

    constructor (host: Host)
      ensures this.host == host && vms == [] && vdis == [] && vbds == []
    {
      this.host := host;
      vms := [];
      vdis := [];
      vbds := [];
    }

    /** Every VM that `w` has beyond `w0` is tracked. */
    ghost predicate TracksVms(w0: World, w: World)
      reads this
    {
      Covers(w0.vms.Keys, w.vms.Keys, vms)
    }

    /** Every VDI that `w` has beyond `w0` is tracked. */
    ghost predicate TracksVdis(w0: World, w: World)
      reads this
    {
      Covers(w0.vdis.Keys, w.vdis.Keys, vdis)
    }

    /**
      `host.vm_from_template(name, template)`: `vm-install` with the prefixed
      name on the host's main SR; the new VM is tracked at once.
    */
    method InstallVm(name: string, template: string, h: Helpers) returns (r: Result<Uuid>)
      requires Valid(host.plane.world)
      modifies this, host.plane
      ensures Valid(host.plane.world) && vdis == old(vdis) && vbds == old(vbds)
      ensures host.mainSr.None? ==>
                r == Err(NoMainSr) && host.plane.world == old(host.plane.world) && host.plane.log == old(host.plane.log)
      ensures host.mainSr.Some? ==>
                && host.plane.log == old(host.plane.log) + [VmInstall(h.prefixObjectName(name), template, host.mainSr.value)]
                && (r.Ok? <==> |old(host.plane.log)| !in host.plane.faults)
      ensures r.Ok? ==> && vms == old(vms) + [r.value] && r.value !in old(host.plane.world).vms
                        && r.value in host.plane.world.vms && NewVm(old(host.plane.world), host.plane.world)
                        && host.plane.world.vms[r.value].name == h.prefixObjectName(name)
                        && host.plane.world.vms[r.value].disks == []
      ensures r.Err? ==> vms == old(vms) && host.plane.world == old(host.plane.world)
      ensures TracksVms(old(host.plane.world), host.plane.world) && TracksVdis(old(host.plane.world), host.plane.world)
    {
      if host.mainSr.None? {
        return Err(NoMainSr);
      }
      var vm := host.plane.Install(h.prefixObjectName(name), template, host.mainSr.value);
      if vm.Err? {
        return Err(vm.msg);
      }
      vms := vms + [vm.value];
      r := Ok(vm.value);
    }

    /**
      The rest of an entry of a definition's "vdis", once VDI `vdi` exists: a
      VBD plugging it into `vm`, tracked at once; then its "userdevice".
    */
    method PlugDisk(vm: Uuid, vdi: Uuid, d: VdiDef) returns (r: Result<()>)
      requires Valid(host.plane.world)
      modifies this, host.plane
      ensures Valid(host.plane.world) && vms == old(vms) && vdis == old(vdis)
      ensures var n := old(host.plane.world.next);
              var plan := [VbdCreate(vm, Some(vdi), d.device), VbdParamSet(n, "userdevice", d.userdevice)];
              && LoggedPrefix(old(host.plane.log), host.plane.log, plan)
              && (r.Ok? <==> && NoFaults(host.plane.faults, |old(host.plane.log)|, 2) && vm in old(host.plane.world).vms
                             && vdi in old(host.plane.world).vdis)
              && vbds == old(vbds) + (if n in host.plane.world.vbds then [n] else [])
              && (r.Ok? ==> && |host.plane.log| == |old(host.plane.log)| + 2
                            && vm in host.plane.world.vms && n in host.plane.world.vbds
                            && host.plane.world.vms[vm].disks == old(host.plane.world).vms[vm].disks + [vdi]
                            && host.plane.world.vbds[n] == VbdRec(vm, Some(vdi), d.device, map["userdevice" := d.userdevice]))
      ensures host.plane.world.vms.Keys == old(host.plane.world).vms.Keys
      ensures host.plane.world.vdis == old(host.plane.world).vdis
      ensures TracksVms(old(host.plane.world), host.plane.world)
    {
      var plane := host.plane;
      var vbd := plane.CreateVbd(vm, Some(vdi), d.device);
      if vbd.Err? {
        return Err(vbd.msg);
      }
      vbds := vbds + [vbd.value];
      var tagged := plane.SetVbdParam(vbd.value, "userdevice", d.userdevice);
      if tagged.Err? {
        return Err(tagged.msg);
      }
      r := Ok(());
    }

    /**
      One entry of a definition's "vdis": a VDI on the main SR, tracked at once,
      then plugged into `vm`.
    */
    method AddDisk(vm: Uuid, d: VdiDef) returns (r: Result<()>)
      requires Valid(host.plane.world)
      modifies this, host.plane
      ensures Valid(host.plane.world) && vms == old(vms)
      ensures host.plane.world.vms.Keys == old(host.plane.world).vms.Keys
      ensures TracksVms(old(host.plane.world), host.plane.world) && TracksVdis(old(host.plane.world), host.plane.world)
      ensures host.mainSr.None? ==>
                && r == Err(NoMainSr) && host.plane.world == old(host.plane.world)
                && host.plane.log == old(host.plane.log) && vdis == old(vdis) && vbds == old(vbds)
      ensures Extends(old(vdis), vdis) && Extends(old(vbds), vbds)
      ensures host.mainSr.Some? ==>
                var n := old(host.plane.world.next);
                && LoggedPrefix(old(host.plane.log), host.plane.log, DiskPlan(vm, d, host.mainSr.value, n))
                && (r.Ok? <==> NoFaults(host.plane.faults, |old(host.plane.log)|, 3) && vm in old(host.plane.world).vms)
                && vdis == old(vdis) + (if n in host.plane.world.vdis then [n] else [])
                && vbds == old(vbds) + (if n + 1 in host.plane.world.vbds then [n + 1] else [])
      ensures r.Ok? ==> && host.mainSr.Some? && |host.plane.log| == |old(host.plane.log)| + 3
                        && vdis == old(vdis) + [old(host.plane.world.next)]
                        && vbds == old(vbds) + [old(host.plane.world.next) + 1]
                        && DiskPlugged(old(host.plane.world), host.plane.world, vm, d, host.mainSr.value, old(host.plane.world.next))
    {
      if host.mainSr.None? {
        return Err(NoMainSr);
      }
      var plane := host.plane;
      ghost var w0, log0 := plane.world, plane.log;
      var vdi := plane.CreateVdi(d.name, host.mainSr.value, d.size);
      if vdi.Err? {
        return Err(vdi.msg);
      }
      vdis := vdis + [vdi.value];
      r := PlugDisk(vm, vdi.value, d);
      ExtendsAppend(old(vdis), [vdi.value]);
      ExtendsAppend(old(vbds), vbds[|old(vbds)|..]);
      assert old(vbds) + vbds[|old(vbds)|..] == vbds;
      ghost var plan := DiskPlan(vm, d, host.mainSr.value, vdi.value);
      assert plan == [plan[0]] + plan[1..];
      LoggedAfter(log0, [plan[0]], plane.log, plan[1..]);
      NoFaultsSplit(plane.faults, |log0|, 1, 2);
    }

    /**
      A definition's "vdis", one entry after the other; the first failure
      stops the loop, with everything created so far tracked.
    */
    method AddDisks(vm: Uuid, defs: seq<VdiDef>) returns (r: Result<()>)
      requires Valid(host.plane.world)
      modifies this, host.plane
      ensures Valid(host.plane.world) && vms == old(vms)
      ensures host.plane.world.vms.Keys == old(host.plane.world).vms.Keys
      ensures TracksVms(old(host.plane.world), host.plane.world) && TracksVdis(old(host.plane.world), host.plane.world)
      ensures r.Ok? <==> defs == [] || (host.mainSr.Some? && vm in old(host.plane.world).vms
                                        && NoFaults(host.plane.faults, |old(host.plane.log)|, 3 * |defs|))
      ensures Extends(old(vdis), vdis) && Extends(old(vbds), vbds)
      ensures r.Ok? ==> && |host.plane.log| == |old(host.plane.log)| + 3 * |defs|
                        && |vdis| == |old(vdis)| + |defs| && |vbds| == |old(vbds)| + |defs|
                        && DisksAdded(old(host.plane.world), host.plane.world, vm, vdis[|old(vdis)|..])
    {
      var plane := host.plane;
      ghost var w0, log0, vdis0, vbds0 := plane.world, plane.log, vdis, vbds;
      ghost var newVdis: seq<Uuid>, newVbds: seq<Uuid> := [], [];
      var i := 0;
      while i < |defs|
        invariant i <= |defs|
        invariant Valid(plane.world) && vms == old(vms) && plane.world.vms.Keys == w0.vms.Keys
        invariant TracksVms(w0, plane.world) && TracksVdis(w0, plane.world)
        invariant |plane.log| == |log0| + 3 * i
        invariant i > 0 ==> host.mainSr.Some? && vm in w0.vms && NoFaults(plane.faults, |log0|, 3 * i)
        invariant vdis == vdis0 + newVdis && vbds == vbds0 + newVbds && |newVdis| == i && |newVbds| == i
        invariant DisksAdded(w0, plane.world, vm, newVdis)
      {
        ghost var wI, vdisI, vbdsI := plane.world, vdis, vbds;
        var added := AddDisk(vm, defs[i]);
        CoversTrans(w0.vms.Keys, wI.vms.Keys, plane.world.vms.Keys, vms, vms);
        CoversTrans(w0.vdis.Keys, wI.vdis.Keys, plane.world.vdis.Keys, vdisI, vdis);
        NoFaultsSplit(plane.faults, |log0|, 3 * i, 3);
        if added.Err? {
          ExtendsAppend(vdis0, newVdis);
          ExtendsAppend(vbds0, newVbds);
          ExtendsTrans(vdis0, vdisI, vdis);
          ExtendsTrans(vbds0, vbdsI, vbds);
          return Err(added.msg);
        }
        DisksAddedNext(w0, wI, plane.world, vm, newVdis, wI.next, defs[i], host.mainSr.value);
        newVdis, newVbds := newVdis + [wI.next], newVbds + [wI.next + 1];
        i := i + 1;
      }
      SplitConcat(vdis0, newVdis);
      ExtendsAppend(vdis0, newVdis);
      ExtendsAppend(vbds0, newVbds);
      r := Ok(());
    }

    /** A definition's "cd_vbd": an empty CD drive with its "userdevice"; it is not tracked. */
    method AddCdDrive(vm: Uuid, cd: CdVbdDef) returns (r: Result<()>)
      requires Valid(host.plane.world)
      modifies host.plane
      ensures Valid(host.plane.world)
      ensures var n := old(host.plane.world.next);
              && LoggedPrefix(old(host.plane.log), host.plane.log,
                              [VbdCreate(vm, None, cd.device), VbdParamSet(n, "userdevice", cd.userdevice)])
              && (r.Ok? <==> NoFaults(host.plane.faults, |old(host.plane.log)|, 2) && vm in old(host.plane.world).vms)
              && (r.Ok? ==> && |host.plane.log| == |old(host.plane.log)| + 2 && n in host.plane.world.vbds
                            && host.plane.world.vbds[n] == VbdRec(vm, None, cd.device, map["userdevice" := cd.userdevice]))
      ensures host.plane.world.vms == old(host.plane.world).vms && host.plane.world.vdis == old(host.plane.world).vdis
      ensures TracksVms(old(host.plane.world), host.plane.world)
    {
      var plane := host.plane;
      ghost var w0 := plane.world;
      var vbd := plane.CreateVbd(vm, None, cd.device);
      if vbd.Err? {
        return Err(vbd.msg);
      }
      assert w0.vms[vm].disks + [] == w0.vms[vm].disks;
      assert plane.world.vms == w0.vms;
      var tagged := plane.SetVbdParam(vbd.value, "userdevice", cd.userdevice);
      if tagged.Err? {
        return Err(tagged.msg);
      }
      r := Ok(());
    }

    /** One entry of a definition's "vifs": its network is resolved, then a VIF with the entry's index as device is created on it. */
    method AddVif(vm: Uuid, d: VifDef, networkNamed: string -> Option<string>) returns (r: Result<()>)
      requires Valid(host.plane.world)
      modifies host.plane
      ensures Valid(host.plane.world) && KeepsDisks(old(host.plane.world), host.plane.world, vm)
      ensures var network := VifNetwork(d, networkNamed);
              && host.plane.log == old(host.plane.log) + (if network.Ok? then [VifCommand(vm, d, networkNamed)] else [])
              && (r.Ok? <==> network.Ok? && vm in old(host.plane.world).vms && |old(host.plane.log)| !in host.plane.faults)
    {
      var network := VifNetwork(d, networkNamed);
      if network.Err? {
        return Err(network.msg);
      }
      var vif := host.plane.CreateVif(vm, Text.IntToString(d.index), network.value);
      if vif.Err? {
        return Err(vif.msg);
      }
      r := Ok(());
    }

    /**
      A definition's "vifs", in order: each network is resolved (a refused
      entry raises before its VIF is created) and a VIF with the entry's index
      as device is created on it.  VIFs are not tracked.
    */
    method AddVifs(vm: Uuid, defs: seq<VifDef>, networkNamed: string -> Option<string>) returns (r: Result<()>)
      requires Valid(host.plane.world)
      modifies host.plane
      ensures Valid(host.plane.world) && KeepsDisks(old(host.plane.world), host.plane.world, vm)
      ensures r.Ok? <==> && (forall i :: 0 <= i < |defs| ==> VifNetwork(defs[i], networkNamed).Ok?)
                         && (defs == [] || (vm in old(host.plane.world).vms
                                            && NoFaults(host.plane.faults, |old(host.plane.log)|, |defs|)))
      ensures r.Ok? ==> host.plane.log == old(host.plane.log) + VifCreates(vm, defs, networkNamed)
      ensures r.Err? ==> LoggedPrefix(old(host.plane.log), host.plane.log, VifCreates(vm, defs, networkNamed))
                         || host.plane.log == old(host.plane.log)
    {
      var plane := host.plane;
      ghost var w0, log0 := plane.world, plane.log;
      var i := 0;
      while i < |defs|
        invariant i <= |defs|
        invariant Valid(plane.world) && KeepsDisks(w0, plane.world, vm)
        invariant VifsLogged(log0, plane.log, plane.faults, vm in w0.vms, vm, defs, networkNamed, i)
      {
        ghost var wI, logI := plane.world, plane.log;
        var added := AddVif(vm, defs[i], networkNamed);
        KeepsDisksTrans(w0, wI, plane.world, vm);
        if added.Err? {
          VifsLoggedStop(log0, logI, plane.log, plane.faults, vm in w0.vms, vm, defs, networkNamed, i);
          return Err(added.msg);
        }
        VifsLoggedNext(log0, logI, plane.log, plane.faults, vm in w0.vms, vm, defs, networkNamed, i);
        i := i + 1;
      }
      VifsLoggedDone(log0, plane.log, plane.faults, vm in w0.vms, vm, defs, networkNamed);
      r := Ok(());
    }

    /** A definition's "params", each set on the VM in order. */
    method SetParams(vm: Uuid, params: seq<ParamDef>) returns (r: Result<()>)
      requires Valid(host.plane.world)
      modifies host.plane
      ensures Valid(host.plane.world) && KeepsDisks(old(host.plane.world), host.plane.world, vm)
      ensures r.Ok? <==> params == [] || (vm in old(host.plane.world).vms
                                          && NoFaults(host.plane.faults, |old(host.plane.log)|, |params|))
      ensures r.Ok? ==> host.plane.log == old(host.plane.log) + ParamSets(vm, params)
      ensures r.Err? ==> LoggedPrefix(old(host.plane.log), host.plane.log, ParamSets(vm, params))
    {
      var plane := host.plane;
      ghost var w0, log0 := plane.world, plane.log;
      var i := 0;
      while i < |params|
        invariant 0 <= i <= |params|
        invariant Valid(plane.world) && KeepsDisks(w0, plane.world, vm)
        invariant i > 0 ==> vm in w0.vms && NoFaults(plane.faults, |log0|, i)
        invariant plane.log == log0 + ParamSets(vm, params)[..i]
      {
        ghost var wI := plane.world;
        var applied := plane.ParamSet(vm, ParamName(params[i]), params[i].value);
        KeepsDisksTrans(w0, wI, plane.world, vm);
        TakeSnoc(log0, ParamSets(vm, params), i);
        if applied.Err? {
          return Err(applied.msg);
        }
        i := i + 1;
      }
      assert ParamSets(vm, params)[..i] == ParamSets(vm, params);
      r := Ok(());
    }

    /**
      The rest of `_create_vm` once VM `vm` exists: its "vdis", its "cd_vbd",
      its "vifs" and its "params", in that order (an absent list adds
      nothing).  Only a refused network or an injected fault fails it.
    */
    method FurnishVm(vm: Uuid, def: VmDef, networkNamed: string -> Option<string>) returns (r: Result<()>)
      requires Valid(host.plane.world) && host.mainSr.Some? && vm in host.plane.world.vms
      modifies this, host.plane
      ensures Valid(host.plane.world) && vms == old(vms)
      ensures host.plane.world.vms.Keys == old(host.plane.world).vms.Keys
      ensures TracksVms(old(host.plane.world), host.plane.world) && TracksVdis(old(host.plane.world), host.plane.world)
      ensures r.Ok? <==> && NetworksResolve(Listed(def.vifs), networkNamed)
                         && NoFaults(host.plane.faults, |old(host.plane.log)|, FurnishCount(def))
      ensures Extends(old(vdis), vdis)
      ensures r.Ok? ==> && |host.plane.log| == |old(host.plane.log)| + FurnishCount(def)
                        && |vdis| == |old(vdis)| + |Listed(def.vdis)|
                        && DisksAdded(old(host.plane.world), host.plane.world, vm, vdis[|old(vdis)|..])
    {
      var plane := host.plane;
      ghost var w0, log0, vdis0 := plane.world, plane.log, vdis;
      var disks := AddDisks(vm, Listed(def.vdis));
      if disks.Err? {
        return Err(disks.msg);
      }
      ghost var w1, log1 := plane.world, plane.log;
      ghost var cds := if def.cdVbd.Some? then 2 else 0;
      if def.cdVbd.Some? {
        var cd := AddCdDrive(vm, def.cdVbd.value);
        if cd.Err? {
          NoFaultsSplit(plane.faults, |log0|, 3 * |Listed(def.vdis)|, 2);
          return Err(cd.msg);
        }
      }
      ghost var w2, log2 := plane.world, plane.log;
      var vifs := AddVifs(vm, Listed(def.vifs), networkNamed);
      if vifs.Err? {
        return Err(vifs.msg);
      }
      ghost var w3, log3 := plane.world, plane.log;
      var params := SetParams(vm, Listed(def.params));
      if params.Err? {
        return Err(params.msg);
      }
      r := Ok(());
    }

    /**
      `_create_vm`: the VM is installed from the definition's template under
      the prefixed test name and tracked at once, then furnished.  Only a
      missing main SR, a refused network or an injected fault fails it; on
      success the one new tracked VM holds exactly the new tracked disks.
    */
    method CreateVm(def: VmDef, nodeid: string, h: Helpers, networkNamed: string -> Option<string>) returns (r: Result<()>)
      requires Valid(host.plane.world) && def.name.Some? && def.template.Some?
      modifies this, host.plane
      ensures Valid(host.plane.world)
      ensures TracksVms(old(host.plane.world), host.plane.world) && TracksVdis(old(host.plane.world), host.plane.world)
      ensures Extends(old(vms), vms) && Extends(old(vdis), vdis)
      ensures host.mainSr.None? ==> && r == Err(NoMainSr) && host.plane.world == old(host.plane.world)
                                    && host.plane.log == old(host.plane.log) && vms == old(vms)
      ensures r.Ok? <==> && host.mainSr.Some? && NetworksResolve(Listed(def.vifs), networkNamed)
                         && NoFaults(host.plane.faults, |old(host.plane.log)|, 1 + FurnishCount(def))
      ensures r.Ok? ==> && |host.plane.log| == |old(host.plane.log)| + 1 + FurnishCount(def)
                        && vms == old(vms) + [old(host.plane.world.next)]
                        && old(host.plane.world.next) in host.plane.world.vms
                        && |vdis| == |old(vdis)| + |Listed(def.vdis)|
                        && host.plane.world.vms[old(host.plane.world.next)].disks == vdis[|old(vdis)|..]
    {
      var plane := host.plane;
      ghost var w0, log0 := plane.world, plane.log;
      var vm := InstallVm(VmName(def.name.value, nodeid), def.template.value, h);
      if vm.Err? {
        ExtendsAppend(vms, []);
        return Err(vm.msg);
      }
      ExtendsAppend(old(vms), [vm.value]);
      ghost var w1, vdis1 := plane.world, vdis;
      r := FurnishVm(vm.value, def, networkNamed);
      CoversTrans(w0.vms.Keys, w1.vms.Keys, plane.world.vms.Keys, vms, vms);
      CoversTrans(w0.vdis.Keys, w1.vdis.Keys, plane.world.vdis.Keys, vdis1, vdis);
      NoFaultsSplit(plane.faults, |log0|, 1, FurnishCount(def));
    }

    /**
      The lookup of `_vm_from_cache`: the definition's cache key (a missing
      "name" or "image_test" raises), the main SR (none raises), then
      `cached_vm` for the key on that SR; finding nothing raises.  Nothing is
      sent.
    */
    method FindCached(def: VmDef, nodeid: string, gitref: string, ids: NodeIds, equivs: map<string, string>,
                      h: Helpers) returns (r: Result<Uuid>)
      requires Valid(host.plane.world)
      ensures var key := VmCacheKeyFromDef(def, nodeid, gitref, ids, equivs);
              && (r.Ok? <==> && key.Ok? && host.mainSr.Some?
                             && CachedVmSpec(host.plane.world, VmCacheKey(key.value, h), host.mainSr) != Ok(None))
              && (r.Ok? ==> CachedVmSpec(host.plane.world, VmCacheKey(key.value, h), host.mainSr) == Ok(Some(r.value)))
      ensures r.Ok? ==> def.name.Some? && r.value in host.plane.world.vms
    {
      var key := VmCacheKeyFromDef(def, nodeid, gitref, ids, equivs);
      if key.Err? {
        return Err(key.msg);
      }
      if host.mainSr.None? {
        return Err(NoMainSr);
      }
      var found := host.CachedVm(key.value, host.mainSr, h);
      CachedVmLookup(host.plane.world, VmCacheKey(key.value, h), host.mainSr);
      if found.Err? || found.value.None? {
        return Err("RuntimeError: No cache found");
      }
      r := Ok(found.value.value);
    }

    /** `base_vm.clone(name=name)` on a handle for cached VM `base`: a new VM under `name`, beside an untouched `base`. */
    method CloneBase(base: Uuid, name: string) returns (r: Result<Uuid>)
      requires Valid(host.plane.world) && base in host.plane.world.vms
      modifies host.plane
      ensures Valid(host.plane.world) && host.plane.log == old(host.plane.log) + [VmClone(base, name)]
      ensures r.Ok? <==> |old(host.plane.log)| !in host.plane.faults
      ensures r.Ok? ==> && r.value == old(host.plane.world.next) && r.value !in old(host.plane.world).vms
                        && host.plane.world.vms.Keys == old(host.plane.world).vms.Keys + {r.value}
                        && host.plane.world.vms[r.value].name == name
                        && host.plane.world.vms[base] == old(host.plane.world).vms[base]
      ensures r.Err? ==> host.plane.world == old(host.plane.world)
    {
      var handle := new Vm(base, host);
      var clone := handle.Clone(Some(name));
      if clone.Err? {
        return Err(clone.msg);
      }
      r := Ok(clone.value.uuid);
    }

    /**
      The second half of `_vm_from_cache`: cached VM `base` is cloned under
      `name`, so that it stays untouched, and the clone's description (which
      may carry a cache key) is emptied.  The clone is tracked as soon as it
      exists.
    */
    method CloneForTest(base: Uuid, name: string) returns (r: Result<()>)
      requires Valid(host.plane.world) && base in host.plane.world.vms
      modifies this, host.plane
      ensures Valid(host.plane.world) && vdis == old(vdis) && vbds == old(vbds)
      ensures TracksVms(old(host.plane.world), host.plane.world) && Extends(old(vms), vms)
      ensures var c := old(host.plane.world.next);
              && LoggedPrefix(old(host.plane.log), host.plane.log, [VmClone(base, name), VmParamSet(c, "name-description", "")])
              && (r.Ok? <==> NoFaults(host.plane.faults, |old(host.plane.log)|, 2))
              && (r.Ok? ==> && vms == old(vms) + [c] && c in host.plane.world.vms && c !in old(host.plane.world).vms
                            && host.plane.world.vms[c].name == name && host.plane.world.vms[c].description == ""
                            && base in host.plane.world.vms && host.plane.world.vms[base] == old(host.plane.world).vms[base])
    {
      var plane := host.plane;
      ghost var log0, c := plane.log, plane.world.next;
      ghost var plan := [VmClone(base, name), VmParamSet(c, "name-description", "")];
      var clone := CloneBase(base, name);
      LoggedFirst(log0, plan);
      if clone.Err? {
        ExtendsAppend(vms, []);
        return Err(clone.msg);
      }
      ExtendsAppend(vms, [clone.value]);
      vms := vms + [clone.value];
      var cleared := plane.ParamSet(clone.value, "name-description", "");
      LoggedNext(log0, log0 + [plan[0]], plan);
      NoFaultsSplit(plane.faults, |log0|, 1, 1);
      if cleared.Err? {
        return Err(cleared.msg);
      }
      r := Ok(());
    }

    /**
      The second half of `_vm_from_cache` as written: the clone is appended to
      the tracked VMs only after its description is emptied, so when that
      command fails the clone exists and is tracked by nobody.
    */
    method CloneForTestAsWritten(base: Uuid, name: string) returns (r: Result<()>)
      requires Valid(host.plane.world) && base in host.plane.world.vms
      modifies this, host.plane
      ensures Valid(host.plane.world) && vdis == old(vdis) && vbds == old(vbds)
      ensures var c := old(host.plane.world.next);
              && LoggedPrefix(old(host.plane.log), host.plane.log, [VmClone(base, name), VmParamSet(c, "name-description", "")])
              && (r.Ok? <==> NoFaults(host.plane.faults, |old(host.plane.log)|, 2))
              && (r.Ok? ==> vms == old(vms) + [c] && TracksVms(old(host.plane.world), host.plane.world))
              && (r.Err? && |host.plane.log| == |old(host.plane.log)| + 2 ==>
                    vms == old(vms) && c in host.plane.world.vms && c !in old(host.plane.world).vms)
    {
      var plane := host.plane;
      ghost var log0, c := plane.log, plane.world.next;
      ghost var plan := [VmClone(base, name), VmParamSet(c, "name-description", "")];
      var clone := CloneBase(base, name);
      LoggedFirst(log0, plan);
      if clone.Err? {
        return Err(clone.msg);
      }
      var cleared := plane.ParamSet(clone.value, "name-description", "");
      LoggedNext(log0, log0 + [plan[0]], plan);
      NoFaultsSplit(plane.faults, |log0|, 1, 1);
      if cleared.Err? {
        return Err(cleared.msg);
      }
      vms := vms + [clone.value];
      r := Ok(());
    }

    /** `_vm_from_cache`: the lookup, then the clone for the test. */
    method VmFromCache(def: VmDef, nodeid: string, gitref: string, ids: NodeIds, equivs: map<string, string>,
                       h: Helpers) returns (r: Result<()>)
      requires Valid(host.plane.world)
      modifies this, host.plane
      ensures Valid(host.plane.world) && vdis == old(vdis) && vbds == old(vbds)
      ensures TracksVms(old(host.plane.world), host.plane.world) && Extends(old(vms), vms)
      ensures var key := VmCacheKeyFromDef(def, nodeid, gitref, ids, equivs);
              var found := if key.Ok? then CachedVmSpec(old(host.plane.world), VmCacheKey(key.value, h), host.mainSr)
                           else Err(key.msg);
              if found.Ok? && found.value.Some? then
                var c := old(host.plane.world.next);
                && LoggedPrefix(old(host.plane.log), host.plane.log,
                                [VmClone(found.value.value, h.prefixObjectName(VmName(def.name.value, nodeid))),
                                 VmParamSet(c, "name-description", "")])
                && (r.Ok? <==> NoFaults(host.plane.faults, |old(host.plane.log)|, 2))
                && (r.Ok? ==> vms == old(vms) + [c] && c in host.plane.world.vms && host.plane.world.vms[c].description == "")
              else
                && r.Err? && vms == old(vms)
                && host.plane.world == old(host.plane.world) && host.plane.log == old(host.plane.log)
    {
      var base := FindCached(def, nodeid, gitref, ids, equivs, h);
      if base.Err? {
        ExtendsAppend(vms, []);
        return Err(base.msg);
      }
      r := CloneForTest(base.value, h.prefixObjectName(VmName(def.name.value, nodeid)));
    }

    /**
      The first loop of the teardown: each tracked VBD destroyed in order, up
      to the first failure.  It succeeds when no injected fault hits and the
      tracked VBDs are distinct and all still there; then none remains.
    */
    method DestroyVbds() returns (r: Result<()>)
      requires Valid(host.plane.world)
      modifies host.plane
      ensures Valid(host.plane.world) && host.plane.world.vms.Keys == old(host.plane.world).vms.Keys
      ensures host.plane.world.vdis == old(host.plane.world).vdis
      ensures LoggedPrefix(old(host.plane.log), host.plane.log, VbdDestroys(vbds))
              || (vbds == [] && host.plane.log == old(host.plane.log))
      ensures r.Ok? ==> && host.plane.log == old(host.plane.log) + VbdDestroys(vbds)
                        && NoFaults(host.plane.faults, |old(host.plane.log)|, |vbds|)
                        && forall b :: b in vbds ==> b !in host.plane.world.vbds
      ensures (NoFaults(host.plane.faults, |old(host.plane.log)|, |vbds|) && Distinct(vbds)
               && forall b :: b in vbds ==> b in old(host.plane.world).vbds) ==> r.Ok?
    {
      var plane := host.plane;
      ghost var w0, log0 := plane.world, plane.log;
      ghost var plan := VbdDestroys(vbds);
      var i := 0;
      while i < |vbds|
        invariant i <= |vbds|
        invariant Valid(plane.world) && plane.world.vms.Keys == w0.vms.Keys && plane.world.vdis == w0.vdis
        invariant Logged(log0, plane.log, plan, i) && NoFaults(plane.faults, |log0|, i)
        invariant i > 0 ==> LoggedPrefix(log0, plane.log, plan)
        invariant forall j :: 0 <= j < i ==> vbds[j] !in plane.world.vbds
        invariant forall b :: b in w0.vbds && b !in vbds[..i] ==> b in plane.world.vbds
      {
        ghost var logI := plane.log;
        var destroyed := plane.DestroyVbd(vbds[i]);
        LoggedStep(log0, logI, plane.log, plan, i);
        if destroyed.Err? {
          if |log0| + i in plane.faults {
            assert !NoFaults(plane.faults, |log0|, |vbds|);
          } else if vbds[i] in vbds[..i] {
            var k :| 0 <= k < i && vbds[k] == vbds[i];
            assert !Distinct(vbds);
          } else {
            assert vbds[i] !in w0.vbds;
          }
          return Err(destroyed.msg);
        }
        NoFaultsSplit(plane.faults, |log0|, i, 1);
        assert vbds[..i + 1] == vbds[..i] + [vbds[i]];
        i := i + 1;
      }
      LoggedAll(log0, plane.log, plan);
      r := Ok(());
    }

    /**
      The second loop of the teardown: each tracked VDI destroyed in order, up
      to the first failure.  It succeeds when no injected fault hits and the
      tracked VDIs are distinct and all still there; then none remains.
      No VM goes and no VBD appears.
    */
    method DestroyVdis() returns (r: Result<()>)
      requires Valid(host.plane.world)
      modifies host.plane
      ensures Valid(host.plane.world) && host.plane.world.vms.Keys == old(host.plane.world).vms.Keys
      ensures forall b :: b in host.plane.world.vbds ==> b in old(host.plane.world).vbds
      ensures LoggedPrefix(old(host.plane.log), host.plane.log, VdiDestroys(vdis))
              || (vdis == [] && host.plane.log == old(host.plane.log))
      ensures r.Ok? ==> && host.plane.log == old(host.plane.log) + VdiDestroys(vdis)
                        && NoFaults(host.plane.faults, |old(host.plane.log)|, |vdis|)
                        && host.plane.world.vdis.Keys == old(host.plane.world).vdis.Keys - Members(vdis)
      ensures (NoFaults(host.plane.faults, |old(host.plane.log)|, |vdis|) && Distinct(vdis)
               && forall d :: d in vdis ==> d in old(host.plane.world).vdis) ==> r.Ok?
    {
      var plane := host.plane;
      ghost var w0, log0 := plane.world, plane.log;
      ghost var plan := VdiDestroys(vdis);
      var i := 0;
      while i < |vdis|
        invariant i <= |vdis|
        invariant Valid(plane.world) && plane.world.vms.Keys == w0.vms.Keys
        invariant forall b :: b in plane.world.vbds ==> b in w0.vbds
        invariant Logged(log0, plane.log, plan, i) && NoFaults(plane.faults, |log0|, i)
        invariant i > 0 ==> LoggedPrefix(log0, plane.log, plan)
        invariant plane.world.vdis.Keys == w0.vdis.Keys - Members(vdis[..i])
      {
        ghost var logI := plane.log;
        var destroyed := plane.DestroyVdi(vdis[i]);
        LoggedStep(log0, logI, plane.log, plan, i);
        if destroyed.Err? {
          if |log0| + i in plane.faults {
            assert !NoFaults(plane.faults, |log0|, |vdis|);
          } else if vdis[i] in vdis[..i] {
            var k :| 0 <= k < i && vdis[k] == vdis[i];
            assert !Distinct(vdis);
          } else {
            assert vdis[i] !in w0.vdis;
          }
          return Err(destroyed.msg);
        }
        NoFaultsSplit(plane.faults, |log0|, i, 1);
        assert vdis[..i + 1] == vdis[..i] + [vdis[i]];
        i := i + 1;
      }
      LoggedAll(log0, plane.log, plan);
      assert vdis[..i] == vdis;
      r := Ok(());
    }

    /**
      The `finally` block of `create_vms`: the tracked VBDs, then the tracked
      VDIs, then the tracked VMs are destroyed, and the first failure stops
      the teardown.  On success the commands start with the VBD and VDI
      destructions in that order, and none of the tracked VMs and VDIs is left.
    */
    method Teardown() returns (r: Result<()>)
      requires Valid(host.plane.world)
      modifies host.plane
      ensures Valid(host.plane.world) && Extends(old(host.plane.log), host.plane.log)
      ensures r.Ok? ==> && Extends(old(host.plane.log) + VbdDestroys(vbds) + VdiDestroys(vdis), host.plane.log)
                        && (forall v :: v in vms ==> v in old(host.plane.world).vms)
                        && host.plane.world.vms.Keys == old(host.plane.world).vms.Keys - Members(vms)
                        && forall d :: d in vdis ==> d !in host.plane.world.vdis
    {
      var plane := host.plane;
      ghost var log0, keys0 := plane.log, plane.world.vms.Keys;
      var vbdsGone := DestroyVbds();
      if vbdsGone.Err? {
        if vbds != [] {
          LoggedPrefixExtends(log0, plane.log, VbdDestroys(vbds));
        }
        return Err(vbdsGone.msg);
      }
      ghost var log1 := plane.log;
      ExtendsAppend(log0, VbdDestroys(vbds));
      var vdisGone := DestroyVdis();
      if vdisGone.Err? {
        if vdis != [] {
          LoggedPrefixExtends(log1, plane.log, VdiDestroys(vdis));
        }
        ExtendsTrans(log0, log1, plane.log);
        return Err(vdisGone.msg);
      }
      ghost var log2 := plane.log;
      ExtendsAppend(log1, VdiDestroys(vdis));
      ExtendsTrans(log0, log1, log2);
      assert plane.world.vms.Keys == keys0;
      var vmsGone := DestroyEach(host, vms);
      ExtendsTrans(log0, log2, plane.log);
      if vmsGone.Err? {
        return Err(vmsGone.msg);
      }
      r := Ok(());
    }

    /** `vm.save_to_cache(cache_id)` on a handle for VM `vm`: on success it has a cached copy under the id. */
    method SaveOne(vm: Uuid, cacheId: string, h: Helpers) returns (r: Result<()>)
      requires Valid(host.plane.world)
      modifies host.plane
      ensures Valid(host.plane.world)
      ensures r.Ok? ==> host.mainSr.Some? && HasCachedCopy(host.plane.world, vm, VmCacheKey(cacheId, h), host.mainSr.value)
    {
      var handle := new Vm(vm, host);
      var saved := handle.SaveToCache(cacheId, h);
      if saved.Err? {
        return Err(saved.msg);
      }
      r := Ok(());
    }

    /**
      The saving loop of the export: each definition is paired with the
      tracked VM at the same position (up to the shorter list) and that VM is
      saved to the cache under "<short node id>-<name>-<git revision>", in
      order, up to the first failure.  After a successful loop the last pair's
      VM has a cached copy under its id; with no pair nothing is sent.
    */
    method SavePairs(defs: seq<VmDef>, nodeid: string, gitref: string, ids: NodeIds, h: Helpers)
      returns (r: Result<()>)
      requires Valid(host.plane.world) && forall k :: 0 <= k < |defs| ==> defs[k].name.Some?
      modifies host.plane
      ensures Valid(host.plane.world)
      ensures |defs| == 0 || |vms| == 0 ==>
                r.Ok? && host.plane.world == old(host.plane.world) && host.plane.log == old(host.plane.log)
      ensures var n := Min(|defs|, |vms|);
              r.Ok? && n > 0 ==>
                host.mainSr.Some? && HasCachedCopy(host.plane.world, vms[n - 1],
                                                   VmCacheKey(ExportId(nodeid, defs[n - 1], gitref, ids), h),
                                                   host.mainSr.value)
    {
      var plane := host.plane;
      var n := Min(|defs|, |vms|);
      if n == 0 {
        return Ok(());
      }
      var saved := SaveOne(vms[0], ExportId(nodeid, defs[0], gitref, ids), h);
      var i := 1;
      while i < n && saved.Ok?
        invariant 1 <= i <= n
        invariant Valid(plane.world)
        invariant saved.Ok? ==>
                    host.mainSr.Some? && HasCachedCopy(plane.world, vms[i - 1],
                                                       VmCacheKey(ExportId(nodeid, defs[i - 1], gitref, ids), h),
                                                       host.mainSr.value)
      {
        saved := SaveOne(vms[i], ExportId(nodeid, defs[i], gitref, ids), h);
        i := i + 1;
      }
      r := saved;
    }

    /**
      The export of `create_vms` once the test is over: the phase reports
      decide (a missing "setup" report raises), and when they allow it the
      VMs are saved in pairs with their definitions.  A closed gate sends
      nothing.
    */
    method ExportVms(report: Option<PhaseReports>, defs: seq<VmDef>, nodeid: string, gitref: string, ids: NodeIds,
                     h: Helpers) returns (r: Result<()>)
      requires Valid(host.plane.world) && forall k :: 0 <= k < |defs| ==> defs[k].name.Some?
      modifies host.plane
      ensures Valid(host.plane.world)
      ensures ExportGate(report).Err? ==> r.Err?
      ensures ExportGate(report) == Ok(false) ==> r.Ok?
      ensures ExportGate(report) != Ok(true) ==>
                host.plane.world == old(host.plane.world) && host.plane.log == old(host.plane.log)
      ensures var n := Min(|defs|, |vms|);
              r.Ok? && ExportGate(report) == Ok(true) && n > 0 ==>
                host.mainSr.Some? && HasCachedCopy(host.plane.world, vms[n - 1],
                                                   VmCacheKey(ExportId(nodeid, defs[n - 1], gitref, ids), h),
                                                   host.mainSr.value)
    {
      var gate := ExportGate(report);
      if gate.Err? {
        return Err(gate.msg);
      }
      if !gate.value {
        return Ok(());
      }
      r := SavePairs(defs, nodeid, gitref, ids, h);
    }

    /**
      The setup loop of `create_vms`: each (accepted) definition in turn,
      installed from its template or cloned from the cache, up to the first
      failure.  Every VM that appears is tracked, the tracked list only grows,
      and a successful setup tracks one VM per definition, in order.
    */
    method SetupVms(defs: seq<VmDef>, nodeid: string, gitref: string, ids: NodeIds, equivs: map<string, string>,
                    h: Helpers, networkNamed: string -> Option<string>) returns (r: Result<()>)
      requires Valid(host.plane.world) && forall k :: 0 <= k < |defs| ==> Accepted(defs[k])
      modifies this, host.plane
      ensures Valid(host.plane.world)
      ensures TracksVms(old(host.plane.world), host.plane.world) && Extends(old(vms), vms)
      ensures r.Ok? ==> |vms| == |old(vms)| + |defs|
    {
      var plane := host.plane;
      ghost var w0, vms0 := plane.world, vms;
      var i := 0;
      while i < |defs|
        invariant i <= |defs|
        invariant Valid(plane.world)
        invariant Covers(w0.vms.Keys, plane.world.vms.Keys, vms) && Extends(vms0, vms)
        invariant |vms| == |vms0| + i
      {
        ghost var w1, vms1 := plane.world, vms;
        var made;
        if defs[i].template.Some? {
          made := CreateVm(defs[i], nodeid, h, networkNamed);
        } else {
          made := VmFromCache(defs[i], nodeid, gitref, ids, equivs, h);
        }
        CoversTrans(w0.vms.Keys, w1.vms.Keys, plane.world.vms.Keys, vms1, vms);
        ExtendsTrans(vms0, vms1, vms);
        if made.Err? {
          return Err(made.msg);
        }
        i := i + 1;
      }
      r := Ok(());
    }
  }

  /**
    The `create_vms` fixture around one test: the definitions are validated
    (before anything is sent), the VMs are set up, the test runs (its phase
    reports are `report`), the VMs are exported when the reports allow it, and
    the teardown runs in every case once setup has begun.  `cleanup` is the
    teardown's outcome; a failing teardown makes the fixture fail.  When the
    teardown succeeds and nothing was exported, no VM the fixture created is
    left behind.
  */
  method CreateVmsFixture(host: Host, marker: Option<seq<VmDef>>, nodeid: string, gitref: string, ids: NodeIds,
                          equivs: map<string, string>, h: Helpers, networkNamed: string -> Option<string>,
                          report: Option<PhaseReports>) returns (r: Result<()>, cleanup: Result<()>)
    requires Valid(host.plane.world)
    modifies host.plane
    ensures Valid(host.plane.world)
    ensures !(marker.Some? && forall k :: 0 <= k < |marker.value| ==> Accepted(marker.value[k])) ==>
              r.Err? && host.plane.world == old(host.plane.world) && host.plane.log == old(host.plane.log)
    ensures cleanup.Err? ==> r.Err?
    ensures r.Ok? ==> marker.Some? && cleanup.Ok?
    ensures cleanup.Ok? && ExportGate(report) != Ok(true) ==> host.plane.world.vms.Keys <= old(host.plane.world).vms.Keys
  {
    var defs := ValidateDefs(marker);
    if defs.Err? {
      return Err(defs.msg), Ok(());
    }
    var fixture := new CreateVms(host);
    var setup := fixture.SetupVms(defs.value, nodeid, gitref, ids, equivs, h, networkNamed);
    r := setup;
    if setup.Ok? {
      r := fixture.ExportVms(report, defs.value, nodeid, gitref, ids, h);
    }
    cleanup := fixture.Teardown();
    if cleanup.Err? {
      r := Err(cleanup.msg);
    }
  }

  // ---------------------------------------------------------------- imported_vm

  /** What `imported_vm` makes of `vm_ref`, told apart by `is_uuid`: an existing VM, or an image to import. */
  datatype VmSource = ExistingVm(uuid: Uuid) | ImageUri(uri: string)

  /**
    `host.import_vm(uri, host.main_sr_uuid(), use_cache)` (no main SR raises
    first): the VM served is in the pool and every VM there before remains;
    without the cache it is a new VM.
  */
  method ImportBase(host: Host, uri: string, useCache: bool, h: Helpers) returns (r: Result<Uuid>)
    requires Valid(host.plane.world)
    modifies host.plane
    ensures Valid(host.plane.world)
    ensures host.mainSr.None? ==>
              r == Err(NoMainSr) && host.plane.world == old(host.plane.world) && host.plane.log == old(host.plane.log)
    ensures r.Ok? ==> r.value in host.plane.world.vms && old(host.plane.world).vms.Keys <= host.plane.world.vms.Keys
    ensures r.Ok? && !useCache ==> r.value !in old(host.plane.world).vms
  {
    if host.mainSr.None? {
      return Err(NoMainSr);
    }
    CachedVmLookup(host.plane.world, VmCacheKey(uri, h), host.mainSr);
    r := host.ImportVm(uri, host.mainSr, useCache, h);
  }

  /**
    The setup of `imported_vm`: an existing VM is reused (reading the name of
    an unknown VM raises), an image is imported (through the cache when
    CACHE_IMPORTED_VM is set).  With CACHE_IMPORTED_VM the tests get a clone
    whose description is emptied, so that the source VM stays untouched.  The
    VM handed over is new exactly when it was cloned or imported without the
    cache.
  */
  method ImportedVmSetup(host: Host, source: VmSource, cacheImported: bool, h: Helpers) returns (r: Result<Uuid>)
    requires Valid(host.plane.world)
    modifies host.plane
    ensures Valid(host.plane.world)
    ensures r.Ok? ==> r.value in host.plane.world.vms
    ensures r.Ok? ==> (r.value !in old(host.plane.world).vms <==> cacheImported || source.ImageUri?)
    ensures r.Ok? && cacheImported ==> host.plane.world.vms[r.value].description == ""
    ensures source.ExistingVm? && !cacheImported ==>
              && r == (if source.uuid in old(host.plane.world).vms then Ok(source.uuid) else Err("UUID_INVALID"))
              && host.plane.world == old(host.plane.world) && host.plane.log == old(host.plane.log)
  {
    var base: Uuid;
    match source {
      case ExistingVm(u) =>
        if u !in host.plane.world.vms {
          return Err("UUID_INVALID");
        }
        base := u;
      case ImageUri(uri) =>
        var imported := ImportBase(host, uri, cacheImported, h);
        if imported.Err? {
          return Err(imported.msg);
        }
        base := imported.value;
    }
    if !cacheImported {
      return Ok(base);
    }
    var handle := new Vm(base, host);
    var clone := handle.Clone(None);
    if clone.Err? {
      return Err(clone.msg);
    }
    var c := clone.value.uuid;
    var cleared := host.plane.ParamSet(c, "name-description", "");
    if cleared.Err? {
      return Err(cleared.msg);
    }
    r := Ok(c);
  }

  /** The teardown test of `imported_vm` as written: the VM is destroyed exactly when `vm_ref` is not a UUID. */
  function DestroysAsWritten(source: VmSource, cacheImported: bool): bool
  {
    source.ImageUri?
  }

  /** The teardown test as intended: the VM is destroyed exactly when the setup made it (a clone or a fresh import). */
  function DestroysMade(source: VmSource, cacheImported: bool): bool
  {
    source.ImageUri? || cacheImported
  }

  /** The two tests differ exactly for an existing VM under CACHE_IMPORTED_VM, whose clone the written test keeps. */
  lemma TeardownTestsDiffer(source: VmSource, cacheImported: bool)
    ensures DestroysAsWritten(source, cacheImported) != DestroysMade(source, cacheImported)
            <==> source.ExistingVm? && cacheImported
  {
  }

  /** The teardown of `imported_vm`: `vm.destroy()` when `destroy` holds, else nothing. */
  method ImportedVmTeardown(host: Host, vm: Uuid, destroy: bool) returns (r: Result<()>)
    requires Valid(host.plane.world)
    modifies host.plane
    ensures Valid(host.plane.world)
    ensures !destroy ==> r.Ok? && host.plane.world == old(host.plane.world) && host.plane.log == old(host.plane.log)
    ensures destroy && r.Ok? ==> host.plane.world.vms.Keys == old(host.plane.world).vms.Keys - {vm}
  {
    if !destroy {
      return Ok(());
    }
    var handle := new Vm(vm, host);
    r := handle.Destroy();
  }

  /**
    `imported_vm` as written, around the tests of a module: setup, then (once
    the VM was handed over) the teardown with the written test.  For an
    existing VM under CACHE_IMPORTED_VM the clone made for the tests is left
    in the pool.
  */
  method ImportedVmFixtureAsWritten(host: Host, source: VmSource, cacheImported: bool, h: Helpers)
    returns (r: Result<Uuid>, cleanup: Result<()>)
    requires Valid(host.plane.world)
    modifies host.plane
    ensures Valid(host.plane.world)
    ensures r.Ok? && source.ExistingVm? && cacheImported ==>
              cleanup.Ok? && r.value in host.plane.world.vms && r.value !in old(host.plane.world).vms
  {
    r := ImportedVmSetup(host, source, cacheImported, h);
    cleanup := Ok(());
    if r.Ok? {
      cleanup := ImportedVmTeardown(host, r.value, DestroysAsWritten(source, cacheImported));
    }
  }

  /**
    `imported_vm` with the intended teardown test: once the tests are done,
    the VM they used is gone exactly when the fixture made it; a VM that
    existed before is kept.
  */
  method ImportedVmFixture(host: Host, source: VmSource, cacheImported: bool, h: Helpers)
    returns (r: Result<Uuid>, cleanup: Result<()>)
    requires Valid(host.plane.world)
    modifies host.plane
    ensures Valid(host.plane.world)
    ensures r.Ok? && cleanup.Ok? ==> (r.value in host.plane.world.vms <==> r.value in old(host.plane.world).vms)
    ensures cleanup.Err? ==> r.Ok? && DestroysMade(source, cacheImported)
  {
    r := ImportedVmSetup(host, source, cacheImported, h);
    cleanup := Ok(());
    if r.Ok? {
      cleanup := ImportedVmTeardown(host, r.value, DestroysMade(source, cacheImported));
    }
  }
}
