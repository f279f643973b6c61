/**
  The management plane the harness drives through `xe` over SSH, replaced by an
  in-memory state.  A `World` holds the VM, VDI, VBD and VIF records, each pool's
  default SR, each host's management network, the images `xe vm-import` can read
  and the files present on each host.  Every state-changing remote command is a
  `Command`; `Step` says what it does to the world or why XAPI refuses it.

  The class `Plane` executes commands.  It records every attempted command in `log`,
  and the command at position k of the log fails (as an SSH or XAPI error would)
  when k is in `faults`, so that every failure path of the harness can be reached.
  Read-only queries are functions of the world.

  UUIDs are natural numbers minted from the counter `next`: a record created by a
  command gets the counter's value, so a new record never reuses an existing UUID.
*/
module ManagementPlane {
  import opened Wrappers

  type Uuid = nat

  datatype Power = Halted | Running | Suspended | Paused

  /** The `power-state` parameter as `xe` prints it. */
  function PowerText(p: Power): string
  {
    match p
    case Halted => "halted"
    case Running => "running"
    case Suspended => "suspended"
    case Paused => "paused"
  }

  /** A VM (or template-made VM): its name-label, name-description, power state, disks and VIFs in order, other parameters. */
  datatype VmRec = VmRec(name: string, description: string, power: Power, disks: seq<Uuid>, vifs: seq<Uuid>,
                         params: map<string, string>)

  datatype VdiRec = VdiRec(name: string, sr: Uuid)

  /** A VBD links a VM to a VDI; a CD drive has no VDI. */
  datatype VbdRec = VbdRec(vm: Uuid, vdi: Option<Uuid>, device: string, params: map<string, string>)

  datatype VifRec = VifRec(vm: Uuid, device: string, network: string)

  /** What `xe vm-import` creates from a URL or file: the VM's name-label and how many disks and VIFs it has. */
  datatype Image = Image(nameLabel: string, disks: nat, vifs: nat)

  /** An SR as `pool-param-get default-SR` prints it; a pool without default SR prints "<not in database>". */
  datatype SrRef = Sr(uuid: Uuid) | NotInDatabase

  /** The storage-motion part of `xe vm-migrate`: remote master, credentials, the VDI map and (cross-pool) the VIF map. */
  datatype Remote = Remote(master: string, username: string, password: string,
                           vdiMap: map<Uuid, SrRef>, vifMap: Option<map<Uuid, string>>)

  /** The parameters of `xe vm-migrate`. */
  datatype MigrateParams = MigrateParams(vm: Uuid, hostUuid: string, live: bool, remote: Option<Remote>)

  datatype World = World(
    vms: map<Uuid, VmRec>,
    vdis: map<Uuid, VdiRec>,
    vbds: map<Uuid, VbdRec>,
    vifs: map<Uuid, VifRec>,
    defaultSr: map<string, Uuid>,
    mgmtNetwork: map<string, string>,
    images: map<string, Image>,
    files: map<string, map<string, string>>,
    next: Uuid)


  /** Every record's UUID was minted before the counter's current value. */
  ghost predicate Minted(w: World)
  {
    (forall u :: u in w.vms ==> u < w.next)
    && (forall u :: u in w.vdis ==> u < w.next)
    && (forall u :: u in w.vbds ==> u < w.next)
    && (forall u :: u in w.vifs ==> u < w.next)
  }

  /** Every disk of every VM is a VDI record. */
  ghost predicate DisksKnown(w: World)
  {
    forall u, i :: u in w.vms && 0 <= i < |w.vms[u].disks| ==> w.vms[u].disks[i] in w.vdis
  }

  ghost predicate Valid(w: World)
  {
    Minted(w) && DisksKnown(w)
  }

  datatype Command =
    | VmInstall(name: string, template: string, sr: Uuid)
    | VmImport(source: string, into: Option<Uuid>, pool: string)
    | VmClone(vm: Uuid, newName: string)
    | VmStart(vm: Uuid)
    | VmShutdown(vm: Uuid, force: bool)
    | VmDestroy(vm: Uuid)
    | VmParamSet(vm: Uuid, param: string, value: string)
    | VmParamClear(vm: Uuid, param: string)
    | VmMigrate(params: MigrateParams)
    | VdiCreate(name: string, sr: Uuid, size: string)
    | VdiDestroy(vdi: Uuid)
    | VbdCreate(vm: Uuid, disk: Option<Uuid>, device: string)
    | VbdParamSet(vbd: Uuid, param: string, value: string)
    | VbdDestroy(vbd: Uuid)
    | VifCreate(vm: Uuid, device: string, network: string)
    | VifMove(vif: Uuid, network: string)
    | CreateFile(host: string, path: string, text: string)
    | RemoveFile(host: string, path: string)

  // ---------------------------------------------------------------- helpers

  /** `s` without any occurrence of `x`. */
  function Remove(s: seq<Uuid>, x: Uuid): (r: seq<Uuid>)
    ensures x !in r
    ensures forall i :: 0 <= i < |r| ==> r[i] in s
    ensures forall i :: 0 <= i < |s| && s[i] != x ==> s[i] in r
  {
    if s == [] then []
    else if s[0] == x then Remove(s[1..], x)
    else [s[0]] + Remove(s[1..], x)
  }

  /** The UUIDs `from`, `from + 1`, ..., `from + n - 1`. */
  function Range(from: Uuid, n: nat): (r: seq<Uuid>)
    ensures |r| == n && forall i :: 0 <= i < n ==> r[i] == from + i
  {
    if n == 0 then [] else Range(from, n - 1) + [from + n - 1]
  }

  /** `recs` stored under the UUIDs `from`, `from + 1`, ..., in order. */
  function Mint<T>(m: map<Uuid, T>, from: Uuid, recs: seq<T>): (r: map<Uuid, T>)
    ensures forall u :: u in r <==> u in m || from <= u < from + |recs|
    ensures forall i :: 0 <= i < |recs| ==> from + i in r && r[from + i] == recs[i]
    ensures forall u :: u in m && u < from ==> r[u] == m[u]
    decreases |recs|
  {
    if recs == [] then m
    else
      var r := Mint(m[from := recs[0]], from + 1, recs[1..]);
      assert forall i :: 1 <= i < |recs| ==> from + i in r && r[from + i] == recs[i] by {
        forall i | 1 <= i < |recs| ensures from + i in r && r[from + i] == recs[i] {
          assert from + i == (from + 1) + (i - 1);
          assert recs[1..][i - 1] == recs[i];
        }
      }
      r
  }

  /**
    A new halted VM at UUID `w.next`, followed by one fresh VDI per entry of
    `disks` and one fresh VIF per entry of `nets` (the VIF's network).
  */
  function AddVm(w: World, name: string, description: string, disks: seq<VdiRec>, nets: seq<string>): (r: World)
    ensures r.next == w.next + 1 + |disks| + |nets|
    ensures forall u :: u in r.vms <==> u in w.vms || u == w.next
    ensures r.vms[w.next] == VmRec(name, description, Halted, Range(w.next + 1, |disks|),
                                   Range(w.next + 1 + |disks|, |nets|), map[])
    ensures forall u :: u in w.vms && u < w.next ==> r.vms[u] == w.vms[u]
    ensures forall i :: 0 <= i < |disks| ==> w.next + 1 + i in r.vdis && r.vdis[w.next + 1 + i] == disks[i]
    ensures forall u :: u in r.vdis ==> u in w.vdis || w.next < u < r.next
    ensures forall u :: u in w.vdis && u < w.next ==> u in r.vdis && r.vdis[u] == w.vdis[u]
    ensures forall u :: u in r.vifs ==> u in w.vifs || w.next < u < r.next
    ensures forall u :: u in w.vifs && u < w.next ==> u in r.vifs && r.vifs[u] == w.vifs[u]
    ensures r.vbds == w.vbds && r.files == w.files && r.images == w.images
    ensures r.defaultSr == w.defaultSr && r.mgmtNetwork == w.mgmtNetwork
  {
    var vm := w.next;
    var vdis := Mint(w.vdis, vm + 1, disks);
    var vifs := Mint(w.vifs, vm + 1 + |disks|, VifRecs(vm, nets));
    var rec := VmRec(name, description, Halted, Range(vm + 1, |disks|), Range(vm + 1 + |disks|, |nets|), map[]);
    w.(vms := w.vms[vm := rec], vdis := vdis, vifs := vifs, next := vm + 1 + |disks| + |nets|)
  }

  /** The VIFs of VM `vm`, one per network of `nets`, numbered as devices in order. */
  function VifRecs(vm: Uuid, nets: seq<string>): (r: seq<VifRec>)
    ensures |r| == |nets|
  {
    seq(|nets|, i requires 0 <= i < |nets| => VifRec(vm, DeviceText(i), nets[i]))
  }

  /**
    `r` is `w` with one new halted VM at UUID `w.next`: every record of `w` is
    unchanged, the VBDs are the same, and every other new VDI or VIF is minted
    after the VM.
  */
  ghost predicate NewVm(w: World, r: World)
  {
    && r.next > w.next && w.next !in w.vms
    && r.vms.Keys == w.vms.Keys + {w.next}
    && (forall u :: u in w.vms ==> r.vms[u] == w.vms[u])
    && r.vms[w.next].power == Halted
    && (forall u :: u in w.vdis ==> u in r.vdis && r.vdis[u] == w.vdis[u])
    && (forall u :: u in r.vdis ==> u in w.vdis || w.next < u < r.next)
    && (forall u :: u in w.vifs ==> u in r.vifs && r.vifs[u] == w.vifs[u])
    && (forall u :: u in r.vifs ==> u in w.vifs || w.next < u < r.next)
    && r.vbds == w.vbds && r.files == w.files && r.images == w.images
    && r.defaultSr == w.defaultSr && r.mgmtNetwork == w.mgmtNetwork
  }

  /** A new VM and its fresh disks and VIFs keep the world valid, and leave every existing record as it was. */
  lemma AddVmValid(w: World, name: string, description: string, disks: seq<VdiRec>, nets: seq<string>)
    ensures Valid(w) ==> Valid(AddVm(w, name, description, disks, nets)) && NewVm(w, AddVm(w, name, description, disks, nets))
  {
    if !Valid(w) { return; }
    var r := AddVm(w, name, description, disks, nets);
    assert Minted(r);
    forall u, i | u in r.vms && 0 <= i < |r.vms[u].disks| ensures r.vms[u].disks[i] in r.vdis {
      if u == w.next {
        assert r.vms[u].disks[i] == w.next + 1 + i;
      } else {
        assert r.vms[u] == w.vms[u];
        assert r.vms[u].disks[i] in w.vdis;
      }
    }
  }

  /** The disks of a new VM are the given VDI records, in order. */
  lemma AddVmDisks(w: World, name: string, description: string, disks: seq<VdiRec>, nets: seq<string>)
    ensures var r := AddVm(w, name, description, disks, nets);
            forall i :: 0 <= i < |disks| ==> r.vms[w.next].disks[i] in r.vdis && r.vdis[r.vms[w.next].disks[i]] == disks[i]
  {
    var r := AddVm(w, name, description, disks, nets);
    forall i | 0 <= i < |disks|
      ensures r.vms[w.next].disks[i] in r.vdis && r.vdis[r.vms[w.next].disks[i]] == disks[i]
    {
      assert r.vms[w.next].disks[i] == w.next + 1 + i;
    }
  }

  /** The VDIs `xe vm-import` creates for an image: one per disk, named after the image, on `sr`. */
  function ImportedDisks(img: Image, sr: Uuid): (r: seq<VdiRec>)
    ensures |r| == img.disks && forall i :: 0 <= i < |r| ==> r[i] == VdiRec(img.nameLabel, sr)
  {
    seq(img.disks, _ => VdiRec(img.nameLabel, sr))
  }

  /** `n` VIFs on no network yet. */
  function Blanks(n: nat): (r: seq<string>)
    ensures |r| == n
  {
    seq(n, _ => "")
  }

  /** Copies of the VDI records behind `disks`. */
  function ClonedDisks(w: World, disks: seq<Uuid>): (r: seq<VdiRec>)
    requires forall i :: 0 <= i < |disks| ==> disks[i] in w.vdis
    ensures |r| == |disks| && forall i :: 0 <= i < |r| ==> r[i] == w.vdis[disks[i]]
  {
    seq(|disks|, i requires 0 <= i < |disks| => w.vdis[disks[i]])
  }

  /** The networks of the VIFs `vifs` (none for an unknown VIF). */
  function ClonedNets(w: World, vifs: seq<Uuid>): (r: seq<string>)
    ensures |r| == |vifs|
  {
    seq(|vifs|, i requires 0 <= i < |vifs| => if vifs[i] in w.vifs then w.vifs[vifs[i]].network else "")
  }

  /** Decimal text of a device number. */
  function DeviceText(i: nat): string
  {
    if i < 10 then [(48 + i) as char] else DeviceText(i / 10) + [(48 + i % 10) as char]
  }

  // ---------------------------------------------------------------- one command

  /** `xe vm-install`: a VM from a template, with no disks of its own in this model. */
  function DoInstall(w: World, name: string): (r: Result<World>)
    ensures r.Ok? && w.next in r.value.vms && r.value.vms[w.next].name == name
    ensures Valid(w) ==> Valid(r.value) && NewVm(w, r.value)
  {
    AddVmValid(w, name, "", [], []);
    Ok(AddVm(w, name, "", [], []))
  }

  /** `xe vm-import`: the image's VM, its disks on `into` or else on the pool's default SR. */
  function DoImport(w: World, source: string, into: Option<Uuid>, pool: string): (r: Result<World>)
    ensures r.Ok? <==> source in w.images && (into.Some? || pool in w.defaultSr)
    ensures r.Ok? ==> w.next in r.value.vms && r.value.vms[w.next].name == w.images[source].nameLabel
                      && |r.value.vms[w.next].disks| == w.images[source].disks
    ensures Valid(w) && r.Ok? ==> Valid(r.value) && NewVm(w, r.value)
  {
    if source !in w.images then Err("IMPORT_ERROR")
    else if into.None? && pool !in w.defaultSr then Err("SR_NOT_FOUND")
    else
      var img := w.images[source];
      var disks := ImportedDisks(img, if into.Some? then into.value else w.defaultSr[pool]);
      AddVmValid(w, img.nameLabel, "", disks, Blanks(img.vifs));
      Ok(AddVm(w, img.nameLabel, "", disks, Blanks(img.vifs)))
  }

  /** `xe vm-clone`: a new VM with the source's description, a copy of each disk (same SR) and each VIF. */
  function DoClone(w: World, vm: Uuid, newName: string): (r: Result<World>)
    ensures r.Ok? <==> vm in w.vms && forall i :: 0 <= i < |w.vms[vm].disks| ==> w.vms[vm].disks[i] in w.vdis
    ensures r.Ok? ==> w.next in r.value.vms && r.value.vms[w.next].name == newName
                      && r.value.vms[w.next].description == w.vms[vm].description
                      && |r.value.vms[w.next].disks| == |w.vms[vm].disks|
    ensures Valid(w) && r.Ok? ==> Valid(r.value) && NewVm(w, r.value)
  {
    if vm !in w.vms then Err("UUID_INVALID")
    else if exists i :: 0 <= i < |w.vms[vm].disks| && w.vms[vm].disks[i] !in w.vdis then Err("UUID_INVALID")
    else
      var src := w.vms[vm];
      AddVmValid(w, newName, src.description, ClonedDisks(w, src.disks), ClonedNets(w, src.vifs));
      Ok(AddVm(w, newName, src.description, ClonedDisks(w, src.disks), ClonedNets(w, src.vifs)))
  }

  /**
    An imported VM has the image's name, an empty description, the image's
    number of VIFs, and one new disk per image disk, all on the requested SR or
    else the pool's default SR.
  */
  lemma ImportedVm(w: World, source: string, into: Option<Uuid>, pool: string)
    requires DoImport(w, source, into, pool).Ok?
    ensures var r := DoImport(w, source, into, pool).value;
            var img := w.images[source];
            && w.next in r.vms && r.vms[w.next].name == img.nameLabel && r.vms[w.next].description == ""
            && |r.vms[w.next].disks| == img.disks && |r.vms[w.next].vifs| == img.vifs
            && forall i :: 0 <= i < img.disks ==>
                 r.vms[w.next].disks[i] in r.vdis
                 && r.vdis[r.vms[w.next].disks[i]].sr == (if into.Some? then into.value else w.defaultSr[pool])
  {
    var img := w.images[source];
    var disks := ImportedDisks(img, if into.Some? then into.value else w.defaultSr[pool]);
    AddVmDisks(w, img.nameLabel, "", disks, Blanks(img.vifs));
  }

  /** A clone has the new name, the source's description, and a copy of each source disk, in order. */
  lemma ClonedVm(w: World, vm: Uuid, newName: string)
    requires DoClone(w, vm, newName).Ok?
    ensures var r := DoClone(w, vm, newName).value;
            var src := w.vms[vm];
            && w.next in r.vms && r.vms[w.next].name == newName && r.vms[w.next].description == src.description
            && |r.vms[w.next].disks| == |src.disks|
            && forall i :: 0 <= i < |src.disks| ==>
                 r.vms[w.next].disks[i] in r.vdis && r.vdis[r.vms[w.next].disks[i]] == w.vdis[src.disks[i]]
  {
    var src := w.vms[vm];
    AddVmDisks(w, newName, src.description, ClonedDisks(w, src.disks), ClonedNets(w, src.vifs));
  }

  /** `xe vm-start` (halted to running) and `xe vm-shutdown` (any other state to halted). */
  function DoPower(w: World, vm: Uuid, start: bool): (r: Result<World>)
    ensures r.Ok? <==> vm in w.vms && (w.vms[vm].power == Halted <==> start)
    ensures r.Ok? ==> r.value == w.(vms := w.vms[vm := w.vms[vm].(power := if start then Running else Halted)])
    ensures Valid(w) && r.Ok? ==> Valid(r.value)
  {
    if vm !in w.vms then Err("UUID_INVALID")
    else if (w.vms[vm].power == Halted) != start then Err("VM_BAD_POWER_STATE")
    else Ok(w.(vms := w.vms[vm := w.vms[vm].(power := if start then Running else Halted)]))
  }

  /** `xe vm-destroy`: a halted VM goes, with its VBDs and VIFs; its VDIs stay. */
  function DoDestroyVm(w: World, vm: Uuid): (r: Result<World>)
    ensures r.Ok? <==> vm in w.vms && w.vms[vm].power == Halted
    ensures r.Ok? ==> r.value.vms == w.vms - {vm} && r.value.vdis == w.vdis
                      && (forall b :: b in r.value.vbds <==> b in w.vbds && w.vbds[b].vm != vm)
    ensures Valid(w) && r.Ok? ==> Valid(r.value)
  {
    if vm !in w.vms then Err("UUID_INVALID")
    else if w.vms[vm].power != Halted then Err("VM_BAD_POWER_STATE")
    else
      VmGoneValid(w, vm);
      Ok(VmGone(w, vm))
  }

  /** `w` without VM `vm`, its VBDs and its VIFs. */
  function VmGone(w: World, vm: Uuid): World
  {
    w.(vms := w.vms - {vm},
       vbds := map b | b in w.vbds && w.vbds[b].vm != vm :: w.vbds[b],
       vifs := map v | v in w.vifs && w.vifs[v].vm != vm :: w.vifs[v])
  }

  lemma VmGoneValid(w: World, vm: Uuid)
    ensures Valid(w) ==> Valid(VmGone(w, vm))
  {
    if Valid(w) {
      var r := VmGone(w, vm);
      assert r.vdis == w.vdis && r.next == w.next;
      forall u, i | u in r.vms && 0 <= i < |r.vms[u].disks| ensures r.vms[u].disks[i] in r.vdis {
        assert r.vms[u] == w.vms[u];
      }
    }
  }

  /** `xe vm-param-set` / `xe vm-param-clear`. */
  function DoVmParam(w: World, vm: Uuid, param: string, value: Option<string>): (r: Result<World>)
    ensures r.Ok? <==> vm in w.vms
    ensures r.Ok? ==> r.value.vms.Keys == w.vms.Keys && r.value.vms[vm].disks == w.vms[vm].disks
    ensures Valid(w) && r.Ok? ==> Valid(r.value)
  {
    if vm !in w.vms then Err("UUID_INVALID")
    else Ok(w.(vms := w.vms[vm := if value.Some? then SetParam(w.vms[vm], param, value.value)
                                  else ClearParam(w.vms[vm], param)]))
  }

  /** `xe vm-migrate`: with storage motion each mapped VDI moves to its SR and, cross-pool, each mapped VIF to its network. */
  function DoMigrate(w: World, p: MigrateParams): (r: Result<World>)
    ensures r.Ok? ==> p.vm in w.vms && r.value.vms == w.vms && r.value.vdis.Keys == w.vdis.Keys
    ensures r.Ok? && p.remote.Some? ==>
              forall d :: d in p.remote.value.vdiMap ==>
                d in w.vdis && p.remote.value.vdiMap[d].Sr? && r.value.vdis[d].sr == p.remote.value.vdiMap[d].uuid
    ensures Valid(w) && r.Ok? ==> Valid(r.value)
  {
    if p.vm !in w.vms then Err("UUID_INVALID")
    else if p.remote.None? then Ok(w)
    else
      var m := p.remote.value.vdiMap;
      if exists d :: d in m && (d !in w.vdis || m[d].NotInDatabase?) then Err("UUID_INVALID")
      else Ok(w.(vdis := map d | d in w.vdis :: if d in m && m[d].Sr? then w.vdis[d].(sr := m[d].uuid) else w.vdis[d],
                 vifs := match p.remote.value.vifMap
                         case None => w.vifs
                         case Some(nets) => map v | v in w.vifs :: if v in nets then w.vifs[v].(network := nets[v]) else w.vifs[v]))
  }

  /** `xe vdi-create`. */
  function DoCreateVdi(w: World, name: string, sr: Uuid): (r: Result<World>)
    ensures r.Ok? && r.value.vdis == w.vdis[w.next := VdiRec(name, sr)] && r.value.next == w.next + 1
    ensures Valid(w) ==> Valid(r.value)
  {
    Ok(w.(vdis := w.vdis[w.next := VdiRec(name, sr)], next := w.next + 1))
  }

  /** `xe vdi-destroy`: the VDI goes, with the VBDs that use it, and leaves every VM's disk list. */
  function DoDestroyVdi(w: World, vdi: Uuid): (r: Result<World>)
    ensures r.Ok? <==> vdi in w.vdis
    ensures r.Ok? ==> r.value.vdis == w.vdis - {vdi} && r.value.vms.Keys == w.vms.Keys
                      && forall u :: u in w.vms ==> vdi !in r.value.vms[u].disks
    ensures Valid(w) && r.Ok? ==> Valid(r.value)
  {
    if vdi !in w.vdis then Err("UUID_INVALID")
    else
      VdiGoneValid(w, vdi);
      Ok(VdiGone(w, vdi))
  }

  /** `w` without VDI `vdi`, the disk lists that name it and the VBDs that plug it in. */
  function VdiGone(w: World, vdi: Uuid): (r: World)
    ensures r.vdis == w.vdis - {vdi} && r.vms.Keys == w.vms.Keys
    ensures forall u :: u in w.vms ==> r.vms[u] == w.vms[u].(disks := Remove(w.vms[u].disks, vdi))
  {
    var vms := map u | u in w.vms :: w.vms[u].(disks := Remove(w.vms[u].disks, vdi));
    var vbds := map b | b in w.vbds && w.vbds[b].vdi != Some(vdi) :: w.vbds[b];
    w.(vdis := w.vdis - {vdi}, vms := vms, vbds := vbds)
  }

  lemma VdiGoneValid(w: World, vdi: Uuid)
    ensures Valid(w) ==> Valid(VdiGone(w, vdi))
  {
    if Valid(w) {
      var r := VdiGone(w, vdi);
      forall u, i | u in r.vms && 0 <= i < |r.vms[u].disks| ensures r.vms[u].disks[i] in r.vdis {
        assert r.vms[u].disks[i] in w.vms[u].disks;
      }
    }
  }

  /** `xe vbd-create`: a VBD for the VM, plugging the VDI (none for a CD drive) in as its last disk. */
  function DoCreateVbd(w: World, vm: Uuid, disk: Option<Uuid>, device: string): (r: Result<World>)
    ensures r.Ok? <==> vm in w.vms && (disk.Some? ==> disk.value in w.vdis)
    ensures r.Ok? ==> r.value.vbds == w.vbds[w.next := VbdRec(vm, disk, device, map[])] && r.value.next == w.next + 1
    ensures Valid(w) && r.Ok? ==> Valid(r.value)
  {
    if vm !in w.vms || (disk.Some? && disk.value !in w.vdis) then Err("UUID_INVALID")
    else
      var disks := w.vms[vm].disks + (if disk.Some? then [disk.value] else []);
      Ok(w.(vbds := w.vbds[w.next := VbdRec(vm, disk, device, map[])],
            vms := w.vms[vm := w.vms[vm].(disks := disks)],
            next := w.next + 1))
  }

  /** `xe vbd-param-set`. */
  function DoVbdParam(w: World, vbd: Uuid, param: string, value: string): (r: Result<World>)
    ensures r.Ok? <==> vbd in w.vbds
    ensures r.Ok? ==> r.value.vbds.Keys == w.vbds.Keys && param in r.value.vbds[vbd].params
                      && r.value.vbds[vbd].params[param] == value
    ensures Valid(w) && r.Ok? ==> Valid(r.value)
  {
    if vbd !in w.vbds then Err("UUID_INVALID")
    else Ok(w.(vbds := w.vbds[vbd := w.vbds[vbd].(params := w.vbds[vbd].params[param := value])]))
  }

  /** `xe vbd-destroy`: the VBD goes and its VDI leaves the VM's disk list. */
  function DoDestroyVbd(w: World, vbd: Uuid): (r: Result<World>)
    ensures r.Ok? <==> vbd in w.vbds
    ensures r.Ok? ==> r.value.vbds == w.vbds - {vbd} && r.value.vdis == w.vdis
    ensures Valid(w) && r.Ok? ==> Valid(r.value)
  {
    if vbd !in w.vbds then Err("UUID_INVALID")
    else
      VbdGoneValid(w, vbd);
      Ok(VbdGone(w, vbd))
  }

  /** The world once VBD `vbd` is destroyed: the VBD goes and its VDI leaves its VM's disk list. */
  function VbdGone(w: World, vbd: Uuid): World
    requires vbd in w.vbds
  {
    var b := w.vbds[vbd];
    var vms := if b.vdi.Some? && b.vm in w.vms
               then w.vms[b.vm := w.vms[b.vm].(disks := Remove(w.vms[b.vm].disks, b.vdi.value))]
               else w.vms;
    w.(vbds := w.vbds - {vbd}, vms := vms)
  }

  lemma VbdGoneValid(w: World, vbd: Uuid)
    requires vbd in w.vbds
    ensures Valid(w) ==> Valid(VbdGone(w, vbd))
  {
    if Valid(w) {
      var b, r := w.vbds[vbd], VbdGone(w, vbd);
      assert r.vms.Keys == w.vms.Keys && r.vdis == w.vdis;
      forall u, i | u in r.vms && 0 <= i < |r.vms[u].disks| ensures r.vms[u].disks[i] in r.vdis {
        if b.vdi.Some? && u == b.vm {
          assert r.vms[u].disks[i] in w.vms[u].disks;
        } else {
          assert r.vms[u] == w.vms[u];
        }
      }
    }
  }

  /** `xe vif-create`: a VIF on `network`, appended to the VM's VIFs. */
  function DoCreateVif(w: World, vm: Uuid, device: string, network: string): (r: Result<World>)
    ensures r.Ok? <==> vm in w.vms
    ensures r.Ok? ==> r.value.vifs == w.vifs[w.next := VifRec(vm, device, network)] && r.value.next == w.next + 1
                      && r.value.vms.Keys == w.vms.Keys && r.value.vdis == w.vdis && r.value.vbds == w.vbds
    ensures Valid(w) && r.Ok? ==> Valid(r.value)
  {
    if vm !in w.vms then Err("UUID_INVALID")
    else Ok(w.(vifs := w.vifs[w.next := VifRec(vm, device, network)],
               vms := w.vms[vm := w.vms[vm].(vifs := w.vms[vm].vifs + [w.next])],
               next := w.next + 1))
  }

  /** `xe vif-move`: the VIF is put on `network`. */
  function DoMoveVif(w: World, vif: Uuid, network: string): (r: Result<World>)
    ensures r.Ok? <==> vif in w.vifs
    ensures r.Ok? ==> r.value.vifs.Keys == w.vifs.Keys && r.value.vifs[vif].network == network
                      && r.value.vifs[vif].vm == w.vifs[vif].vm
                      && forall v :: v in w.vifs && v != vif ==> r.value.vifs[v] == w.vifs[v]
    ensures r.Ok? ==> r.value == w.(vifs := r.value.vifs)
  {
    if vif !in w.vifs then Err("UUID_INVALID")
    else Ok(w.(vifs := w.vifs[vif := w.vifs[vif].(network := network)]))
  }

  /** `echo ... > path` over SSH (creates or overwrites) and `rm path` (fails when the file is missing). */
  function DoFile(w: World, host: string, path: string, text: Option<string>): (r: Result<World>)
    ensures text.Some? ==> r.Ok? && host in r.value.files && path in r.value.files[host]
                           && r.value.files[host][path] == text.value
    ensures text.None? ==> (r.Ok? <==> host in w.files && path in w.files[host])
    ensures text.None? && r.Ok? ==> host in r.value.files && path !in r.value.files[host]
    ensures r.Ok? ==> r.value == w.(files := r.value.files)
  {
    match text
    case Some(t) =>
      var onHost := if host in w.files then w.files[host] else map[];
      Ok(w.(files := w.files[host := onHost[path := t]]))
    case None =>
      if host !in w.files || path !in w.files[host] then Err("rm: cannot remove: No such file or directory")
      else Ok(w.(files := w.files[host := w.files[host] - {path}]))
  }

  /** `xe vm-param-set`: name-label and name-description are fields, other parameters a map. */
  function SetParam(vm: VmRec, param: string, value: string): VmRec
  {
    if param == "name-label" then vm.(name := value)
    else if param == "name-description" then vm.(description := value)
    else vm.(params := vm.params[param := value])
  }

  /** `xe vm-param-clear`: a cleared name is empty. */
  function ClearParam(vm: VmRec, param: string): VmRec
  {
    if param == "name-description" then vm.(description := "")
    else if param == "name-label" then vm.(name := "")
    else vm.(params := vm.params - {param})
  }

  // ---------------------------------------------------------------- logs of multi-command operations

  /** `log` is `log0` followed by the first commands of `plan`, at least one of them. */
  ghost predicate LoggedPrefix(log0: seq<Command>, log: seq<Command>, plan: seq<Command>)
  {
    |log0| < |log| <= |log0| + |plan| && log == log0 + plan[..|log| - |log0|]
  }

  /** The first command of a plan logged. */
  lemma {:induction false} LoggedFirst(log0: seq<Command>, plan: seq<Command>)
    requires plan != []
    ensures LoggedPrefix(log0, log0 + [plan[0]], plan)
  {
    assert plan[..1] == [plan[0]];
  }

  /** The next command of a plan logged. */
  lemma {:induction false} LoggedNext(log0: seq<Command>, log: seq<Command>, plan: seq<Command>)
    requires LoggedPrefix(log0, log, plan) && |log| < |log0| + |plan|
    ensures LoggedPrefix(log0, log + [plan[|log| - |log0|]], plan)
  {
    var k := |log| - |log0|;
    assert plan[..k + 1] == plan[..k] + [plan[k]];
  }

  // ---------------------------------------------------------------- read-only queries

  /** `xe vm-list name-description=<d> --minimal`: the matching VMs, in ascending UUID order. */
  function VmsWithDescription(w: World, d: string): (r: seq<Uuid>)
    ensures forall i :: 0 <= i < |r| ==> r[i] in w.vms && w.vms[r[i]].description == d
    ensures Minted(w) ==> forall u :: u in w.vms && w.vms[u].description == d ==> u in r
    ensures forall i, j :: 0 <= i < j < |r| ==> r[i] < r[j]
  {
    Matching(w, d, w.next)
  }

  function Matching(w: World, d: string, n: nat): (r: seq<Uuid>)
    ensures forall i :: 0 <= i < |r| ==> r[i] in w.vms && w.vms[r[i]].description == d && r[i] < n
    ensures forall u :: u in w.vms && u < n && w.vms[u].description == d ==> u in r
    ensures forall i, j :: 0 <= i < j < |r| ==> r[i] < r[j]
  {
    if n == 0 then []
    else
      var r := Matching(w, d, n - 1);
      if n - 1 in w.vms && w.vms[n - 1].description == d then r + [n - 1] else r
  }

  /** The SR of a VM's first disk (the harness takes it as the VM's SR); none for an unknown or diskless VM. */
  function FirstDiskSr(w: World, vm: Uuid): (r: Option<Uuid>)
    ensures r.Some? <==> vm in w.vms && w.vms[vm].disks != [] && w.vms[vm].disks[0] in w.vdis
  {
    if vm in w.vms && w.vms[vm].disks != [] && w.vms[vm].disks[0] in w.vdis
    then Some(w.vdis[w.vms[vm].disks[0]].sr) else None
  }

  // ---------------------------------------------------------------- the executor

  class Plane {
    var world: World
    var log: seq<Command>
    const faults: set<nat>

    constructor (w: World, faults: set<nat>)
      requires Valid(w)
      ensures world == w && log == [] && this.faults == faults
    {
      world := w;
      log := [];
      this.faults := faults;
    }

    /**
      Attempts `cmd`, whose own outcome in the current world is `outcome`.  The
      command is logged; it fails as an SSH error when its position in the log is
      an injected fault.  On success the result holds the counter's old value,
      the UUID of the record the command created, if it created one.
    */
    method Attempt(cmd: Command, outcome: Result<World>) returns (r: Result<Uuid>)
      requires Valid(world) && (outcome.Ok? ==> Valid(outcome.value))
      modifies this
      ensures Valid(world) && log == old(log) + [cmd]
      ensures r.Ok? <==> |old(log)| !in faults && outcome.Ok?
      ensures r.Ok? ==> r.value == old(world.next) && world == outcome.value
      ensures r.Err? ==> world == old(world)
      ensures r.Err? && |old(log)| !in faults ==> r.msg == outcome.msg
    {
      log := log + [cmd];
      if |log| - 1 in faults {
        r := Err("SSHCommandFailed");
      } else if outcome.Err? {
        r := Err(outcome.msg);
      } else {
        r := Ok(world.next);
        world := outcome.value;
      }
    }

    /** `xe vm-install`: a new halted VM named `name`, without disks. */
    method Install(name: string, template: string, sr: Uuid) returns (r: Result<Uuid>)
      requires Valid(world)
      modifies this
      ensures Valid(world) && log == old(log) + [VmInstall(name, template, sr)]
      ensures r.Ok? <==> |old(log)| !in faults
      ensures r.Ok? ==> && r.value == old(world.next) && NewVm(old(world), world)
                        && world.vms[r.value].name == name && world.vms[r.value].disks == []
                        && world.vdis == old(world).vdis && world.vbds == old(world).vbds
      ensures r.Err? ==> world == old(world)
    {
      r := Attempt(VmInstall(name, template, sr), DoInstall(world, name));
      if r.Ok? {
        assert world == AddVm(old(world), name, "", [], []);
      }
    }

    /**
      `xe vm-import`: a new halted VM with the image's name and an empty
      description, whose disks are new VDIs on `into` or else on the pool's
      default SR.
    */
    method Import(source: string, into: Option<Uuid>, pool: string) returns (r: Result<Uuid>)
      requires Valid(world)
      modifies this
      ensures Valid(world) && log == old(log) + [VmImport(source, into, pool)]
      ensures r.Ok? <==> |old(log)| !in faults && source in old(world).images && (into.Some? || pool in old(world).defaultSr)
      ensures r.Ok? ==> && r.value == old(world.next) && NewVm(old(world), world)
                        && var img := old(world).images[source];
                        && world.vms[r.value].name == img.nameLabel && world.vms[r.value].description == ""
                        && |world.vms[r.value].disks| == img.disks && |world.vms[r.value].vifs| == img.vifs
                        && forall i :: 0 <= i < img.disks ==>
                             world.vdis[world.vms[r.value].disks[i]].sr
                             == (if into.Some? then into.value else old(world).defaultSr[pool])
      ensures r.Err? ==> world == old(world)
    {
      r := Attempt(VmImport(source, into, pool), DoImport(world, source, into, pool));
      if r.Ok? {
        ImportedVm(old(world), source, into, pool);
      }
    }

    /**
      `xe vm-clone`: a new halted VM named `newName` with the source's
      description and a copy of each of its disks, on the same SR.
    */
    method Clone(vm: Uuid, newName: string) returns (r: Result<Uuid>)
      requires Valid(world)
      modifies this
      ensures Valid(world) && log == old(log) + [VmClone(vm, newName)]
      ensures r.Ok? <==> |old(log)| !in faults && vm in old(world).vms
      ensures r.Ok? ==> && r.value == old(world.next) && NewVm(old(world), world)
                        && var src := old(world).vms[vm];
                        && world.vms[r.value].name == newName && world.vms[r.value].description == src.description
                        && |world.vms[r.value].disks| == |src.disks|
                        && forall i :: 0 <= i < |src.disks| ==>
                             world.vdis[world.vms[r.value].disks[i]] == old(world).vdis[src.disks[i]]
      ensures r.Err? ==> world == old(world)
    {
      r := Attempt(VmClone(vm, newName), DoClone(world, vm, newName));
      if r.Ok? {
        ClonedVm(old(world), vm, newName);
      }
    }

    /** `xe vm-start`: a halted VM runs. */
    method Start(vm: Uuid) returns (r: Result<()>)
      requires Valid(world)
      modifies this
      ensures Valid(world) && log == old(log) + [VmStart(vm)]
      ensures r.Ok? <==> |old(log)| !in faults && vm in old(world).vms && old(world).vms[vm].power == Halted
      ensures r.Ok? ==> world == old(world).(vms := old(world).vms[vm := old(world).vms[vm].(power := Running)])
      ensures r.Err? ==> world == old(world)
    {
      var a := Attempt(VmStart(vm), DoPower(world, vm, true));
      r := if a.Ok? then Ok(()) else Err(a.msg);
    }

    /** `xe vm-shutdown` (with `--force` when `force`): a VM that is not halted halts. */
    method Shutdown(vm: Uuid, force: bool) returns (r: Result<()>)
      requires Valid(world)
      modifies this
      ensures Valid(world) && log == old(log) + [VmShutdown(vm, force)]
      ensures r.Ok? <==> |old(log)| !in faults && vm in old(world).vms && old(world).vms[vm].power != Halted
      ensures r.Ok? ==> world == old(world).(vms := old(world).vms[vm := old(world).vms[vm].(power := Halted)])
      ensures r.Err? ==> world == old(world)
    {
      var a := Attempt(VmShutdown(vm, force), DoPower(world, vm, false));
      r := if a.Ok? then Ok(()) else Err(a.msg);
    }

    /** `xe vm-destroy`: a halted VM goes, with its VBDs and VIFs; its VDIs stay. */
    method DestroyVm(vm: Uuid) returns (r: Result<()>)
      requires Valid(world)
      modifies this
      ensures Valid(world) && log == old(log) + [VmDestroy(vm)]
      ensures r.Ok? <==> |old(log)| !in faults && vm in old(world).vms && old(world).vms[vm].power == Halted
      ensures r.Ok? ==> && world == old(world).(vms := old(world).vms - {vm}, vbds := world.vbds, vifs := world.vifs)
                        && (forall b :: b in world.vbds <==> b in old(world).vbds && old(world).vbds[b].vm != vm)
                        && (forall b :: b in world.vbds ==> world.vbds[b] == old(world).vbds[b])
                        && (forall v :: v in world.vifs <==> v in old(world).vifs && old(world).vifs[v].vm != vm)
      ensures r.Err? ==> world == old(world)
    {
      var a := Attempt(VmDestroy(vm), DoDestroyVm(world, vm));
      r := if a.Ok? then Ok(()) else Err(a.msg);
    }

    /** `xe vm-param-set`. */
    method ParamSet(vm: Uuid, param: string, value: string) returns (r: Result<()>)
      requires Valid(world)
      modifies this
      ensures Valid(world) && log == old(log) + [VmParamSet(vm, param, value)]
      ensures r.Ok? <==> |old(log)| !in faults && vm in old(world).vms
      ensures r.Ok? ==> world == old(world).(vms := old(world).vms[vm := SetParam(old(world).vms[vm], param, value)])
      ensures r.Err? ==> world == old(world)
    {
      var a := Attempt(VmParamSet(vm, param, value), DoVmParam(world, vm, param, Some(value)));
      r := if a.Ok? then Ok(()) else Err(a.msg);
    }

    /** `xe vm-param-clear`. */
    method ParamClear(vm: Uuid, param: string) returns (r: Result<()>)
      requires Valid(world)
      modifies this
      ensures Valid(world) && log == old(log) + [VmParamClear(vm, param)]
      ensures r.Ok? <==> |old(log)| !in faults && vm in old(world).vms
      ensures r.Ok? ==> world == old(world).(vms := old(world).vms[vm := ClearParam(old(world).vms[vm], param)])
      ensures r.Err? ==> world == old(world)
    {
      var a := Attempt(VmParamClear(vm, param), DoVmParam(world, vm, param, None));
      r := if a.Ok? then Ok(()) else Err(a.msg);
    }

    /**
      `xe vm-migrate`: the VM records stay; with storage motion each mapped VDI
      moves to its SR and, cross-pool, each mapped VIF to its network.
    */
    method Migrate(p: MigrateParams) returns (r: Result<()>)
      requires Valid(world)
      modifies this
      ensures Valid(world) && log == old(log) + [VmMigrate(p)]
      ensures r.Ok? <==> && |old(log)| !in faults && p.vm in old(world).vms
                         && (p.remote.Some? ==> forall d :: d in p.remote.value.vdiMap ==>
                                                  d in old(world).vdis && p.remote.value.vdiMap[d].Sr?)
      ensures r.Ok? ==> && world == old(world).(vdis := world.vdis, vifs := world.vifs)
                        && world.vdis.Keys == old(world).vdis.Keys && world.vifs.Keys == old(world).vifs.Keys
      ensures r.Ok? && p.remote.Some? ==>
                forall d :: d in p.remote.value.vdiMap ==> world.vdis[d].sr == p.remote.value.vdiMap[d].uuid
      ensures r.Err? ==> world == old(world)
    {
      var a := Attempt(VmMigrate(p), DoMigrate(world, p));
      r := if a.Ok? then Ok(()) else Err(a.msg);
    }

    /** `xe vdi-create`: a new VDI on `sr`. */
    method CreateVdi(name: string, sr: Uuid, size: string) returns (r: Result<Uuid>)
      requires Valid(world)
      modifies this
      ensures Valid(world) && log == old(log) + [VdiCreate(name, sr, size)]
      ensures r.Ok? <==> |old(log)| !in faults
      ensures r.Ok? ==> && r.value == old(world.next) && r.value !in old(world).vdis
                        && world == old(world).(vdis := old(world).vdis[r.value := VdiRec(name, sr)], next := r.value + 1)
      ensures r.Err? ==> world == old(world)
    {
      r := Attempt(VdiCreate(name, sr, size), DoCreateVdi(world, name, sr));
    }

    /** `xe vdi-destroy`: the VDI goes, with the VBDs that use it, and leaves every VM's disk list. */
    method DestroyVdi(vdi: Uuid) returns (r: Result<()>)
      requires Valid(world)
      modifies this
      ensures Valid(world) && log == old(log) + [VdiDestroy(vdi)]
      ensures r.Ok? <==> |old(log)| !in faults && vdi in old(world).vdis
      ensures r.Ok? ==> && world == old(world).(vdis := old(world).vdis - {vdi}, vms := world.vms, vbds := world.vbds)
                        && world.vms.Keys == old(world).vms.Keys
                        && (forall u :: u in old(world).vms ==>
                              world.vms[u] == old(world).vms[u].(disks := Remove(old(world).vms[u].disks, vdi)))
                        && (forall b :: b in world.vbds <==> b in old(world).vbds && old(world).vbds[b].vdi != Some(vdi))
                        && (forall b :: b in world.vbds ==> world.vbds[b] == old(world).vbds[b])
      ensures r.Err? ==> world == old(world)
    {
      var a := Attempt(VdiDestroy(vdi), DoDestroyVdi(world, vdi));
      r := if a.Ok? then Ok(()) else Err(a.msg);
    }

    /** `xe vbd-create`: a new VBD for the VM; a VDI it plugs becomes the VM's last disk. */
    method CreateVbd(vm: Uuid, disk: Option<Uuid>, device: string) returns (r: Result<Uuid>)
      requires Valid(world)
      modifies this
      ensures Valid(world) && log == old(log) + [VbdCreate(vm, disk, device)]
      ensures r.Ok? <==> |old(log)| !in faults && vm in old(world).vms && (disk.Some? ==> disk.value in old(world).vdis)
      ensures r.Ok? ==> && r.value == old(world.next) && r.value !in old(world).vbds
                        && var rec := old(world).vms[vm];
                        && world == old(world).(vbds := old(world).vbds[r.value := VbdRec(vm, disk, device, map[])],
                                                vms := old(world).vms[vm := rec.(disks := rec.disks + if disk.Some? then [disk.value] else [])],
                                                next := r.value + 1)
      ensures r.Err? ==> world == old(world)
    {
      r := Attempt(VbdCreate(vm, disk, device), DoCreateVbd(world, vm, disk, device));
    }

    /** `xe vbd-param-set`. */
    method SetVbdParam(vbd: Uuid, param: string, value: string) returns (r: Result<()>)
      requires Valid(world)
      modifies this
      ensures Valid(world) && log == old(log) + [VbdParamSet(vbd, param, value)]
      ensures r.Ok? <==> |old(log)| !in faults && vbd in old(world).vbds
      ensures r.Ok? ==> var b := old(world).vbds[vbd];
                        world == old(world).(vbds := old(world).vbds[vbd := b.(params := b.params[param := value])])
      ensures r.Err? ==> world == old(world)
    {
      var a := Attempt(VbdParamSet(vbd, param, value), DoVbdParam(world, vbd, param, value));
      r := if a.Ok? then Ok(()) else Err(a.msg);
    }

    /** `xe vbd-destroy`: the VBD goes and its VDI leaves the VM's disk list; no other VM changes. */
    method DestroyVbd(vbd: Uuid) returns (r: Result<()>)
      requires Valid(world)
      modifies this
      ensures Valid(world) && log == old(log) + [VbdDestroy(vbd)]
      ensures r.Ok? <==> |old(log)| !in faults && vbd in old(world).vbds
      ensures r.Ok? ==> && world == old(world).(vbds := old(world).vbds - {vbd}, vms := world.vms)
                        && world.vms.Keys == old(world).vms.Keys
                        && forall u :: u in old(world).vms && u != old(world).vbds[vbd].vm ==> world.vms[u] == old(world).vms[u]
      ensures r.Err? ==> world == old(world)
    {
      var a := Attempt(VbdDestroy(vbd), DoDestroyVbd(world, vbd));
      r := if a.Ok? then Ok(()) else Err(a.msg);
    }

    /** `xe vif-create`: a new VIF on `network`, appended to the VM's VIFs. */
    method CreateVif(vm: Uuid, device: string, network: string) returns (r: Result<Uuid>)
      requires Valid(world)
      modifies this
      ensures Valid(world) && log == old(log) + [VifCreate(vm, device, network)]
      ensures r.Ok? <==> |old(log)| !in faults && vm in old(world).vms
      ensures r.Ok? ==> && r.value == old(world.next) && r.value !in old(world).vifs
                        && var rec := old(world).vms[vm];
                        && world == old(world).(vifs := old(world).vifs[r.value := VifRec(vm, device, network)],
                                                vms := old(world).vms[vm := rec.(vifs := rec.vifs + [r.value])],
                                                next := r.value + 1)
      ensures r.Err? ==> world == old(world)
    {
      r := Attempt(VifCreate(vm, device, network), DoCreateVif(world, vm, device, network));
    }

    /** `xe vif-move`. */
    method MoveVif(vif: Uuid, network: string) returns (r: Result<()>)
      requires Valid(world)
      modifies this
      ensures Valid(world) && log == old(log) + [VifMove(vif, network)]
      ensures r.Ok? <==> |old(log)| !in faults && vif in old(world).vifs
      ensures r.Ok? ==> world == old(world).(vifs := old(world).vifs[vif := old(world).vifs[vif].(network := network)])
      ensures r.Err? ==> world == old(world)
    {
      var a := Attempt(VifMove(vif, network), DoMoveVif(world, vif, network));
      r := if a.Ok? then Ok(()) else Err(a.msg);
    }

    /** `echo ... > path` on `host`: creates or overwrites the file. */
    method WriteFile(host: string, path: string, text: string) returns (r: Result<()>)
      requires Valid(world)
      modifies this
      ensures Valid(world) && log == old(log) + [CreateFile(host, path, text)]
      ensures r.Ok? <==> |old(log)| !in faults
      ensures r.Ok? ==> var onHost := if host in old(world).files then old(world).files[host] else map[];
                        world == old(world).(files := old(world).files[host := onHost[path := text]])
      ensures r.Err? ==> world == old(world)
    {
      var a := Attempt(CreateFile(host, path, text), DoFile(world, host, path, Some(text)));
      r := if a.Ok? then Ok(()) else Err(a.msg);
    }

    /** `rm path` on `host`: fails when the file is missing. */
    method DeleteFile(host: string, path: string) returns (r: Result<()>)
      requires Valid(world)
      modifies this
      ensures Valid(world) && log == old(log) + [RemoveFile(host, path)]
      ensures r.Ok? <==> |old(log)| !in faults && host in old(world).files && path in old(world).files[host]
      ensures r.Ok? ==> world == old(world).(files := old(world).files[host := old(world).files[host] - {path}])
      ensures r.Err? ==> world == old(world)
    {
      var a := Attempt(RemoveFile(host, path), DoFile(world, host, path, None));
      r := if a.Ok? then Ok(()) else Err(a.msg);
    }
  }
}
