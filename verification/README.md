# xcp-ng-tests harness core, modelled in Dafny

This project models the deterministic logic under the XCP-ng test harness.
The harness is a pytest suite that drives XCP-ng pools over SSH. Its remote
side is replaced by an in-memory management plane: XAPI as `xe` shows it.

The model keeps the harness's own entities:
- the fixtures that set up hosts and VMs and tear them down;
- the VM and host handles;
- the older generation of those handles;
- the encoder for UEFI authenticated variables;
- the filesystem-diff script;
- fistpoints;
- the MTRR check of the grant-table test;
- the required-field validator of the configuration.

Modules, one per file:

| module | file | models |
|---|---|---|
| `Wrappers` | wrappers.dfy | `Option` and `Result`; an error is the text of the exception raised |
| `Text` | text.dfy | the Python `str` operations the harness relies on (`split`, `splitlines`, `strip`, `int(s, base)`), each with a round trip or a shape lemma |
| `ManagementPlane` | plane.dfy | the pool state (see below) and one method per `xe` command |
| `Config` | config.dfy | lib/config.py |
| `FistPoints` | fistpoint.dfy | lib/fistpoint.py |
| `GrantTable` | grant_table.dfy | tests/xen/test_hvmloader_grant-table.py |
| `FsDiff` | fs_diff.dfy | scripts/xcpng-fs-diff.py |
| `EfiBytes`, `Efi` | efi_bytes.dfy, efi.dfy | lib/efi.py: `struct.pack`, GUIDs, UTF-16LE, signature lists and databases, EFI_TIME |
| `EfiSigning` | efi_signing.dfy | lib/efi.py: the EFI_VARIABLE_AUTHENTICATION_2 header, the signed payload, ESL extraction, signed image names |
| `EfiAuthState` | efi_auth.dfy | lib/efi.py: the `timestamp()` clock, `Certificate` and `EFIAuth` |
| `LegacyCommon` | common.dfy | lib/common.py: `wait_for`, the SSH return-code rule, and the older Host and VM handles |
| `HostHandle` | host.dfy | lib/host.py |
| `VmHandle` | vm.dfy | lib/vm.py |
| `Fixtures` | fixtures.dfy | conftest.py |

**The management plane**
- A `World` holds the VM, VDI, VBD and VIF records, each pool's default SR,
  each host's management network, the images an import can read, and the
  files on each host.
- The class `Plane` holds the world and the `log` of every state-changing
  command attempted.
- The command at position k of the log fails, as an SSH or XAPI error would,
  exactly when k is in the constant set `faults`. This reaches every failure
  path of the harness without modelling why a remote call fails.
- Read-only queries are functions of the world.
- New UUIDs are minted from a counter, so a new record never reuses one.

**Stateful code stays stateful**
- Handles whose fields the source updates are classes: `Vm`, `Host`,
  `LegacyVm`, `EfiAuth`, `Clock`, `FistPoint`, and the fixture states
  `HostsFixture` and `CreateVms`.
- Loops of the source are `while` loops with invariants.
- Each method is proved against a specification function, or states its
  effect on the world and its log directly.

**Inputs instead of I/O**
- Everything the harness reads from outside is an input:
  - command outputs (`lsblk`, `yum history`, the package list, file
    listings, message lists, the content of an efivarfs file);
  - the dictionary `parse_xe_dict` makes of a map parameter;
  - the DHCP server's ARP view;
  - certificate files, as a `load` function;
  - the PKCS#7 signer, as a function of the payload;
  - the clock's conversion to a civil date.
- Helpers defined outside the modelled files are function parameters:
  - `strip_suffix`, `prefix_object_name`, `shlex.quote`;
  - `shortened_nodeid` and `expand_scope_relative_nodeid`.
  Nothing is assumed about them beyond their type.

## Model

| member | source | states |
|---|---|---|
| Config.FirstMissing | lib/config.py:7-9 | none is missing exactly when every required field is in the configuration; otherwise the first missing field, all fields before it present |
| Config.SrDeviceConfig | lib/config.py:4-10 | succeeds with the named configuration exactly when it exists and has every required field; an unknown name is the AttributeError, a missing field the "lacks mandatory" error naming the first missing field |
| Config.ExtraFieldsAccepted | lib/config.py:7-9 | a configuration that passes still passes with an extra field |
| Config.PrefixRequirementWeaker | lib/config.py:7-9 | requiring a prefix of the fields accepts everything the full list accepts, with the same result |
| FistPoints.GetName | lib/fistpoint.py:44-49 | the name always starts with "fist_"; it is kept when it already did and prefixed otherwise |
| FistPoints.GetNameIdempotent | lib/fistpoint.py:44-49 | naming twice gives the same name as naming once |
| FistPoints.PrefixedNameSame | lib/fistpoint.py:44-49 | "x" and "fist_x" name the same fistpoint |
| FistPoints.GetPath | lib/fistpoint.py:51-53 | the path is the fistpoint directory, a slash, then the name |
| FistPoints.GetPathInjective | lib/fistpoint.py:51-53 | different names give different paths |
| FistPoints.ExitFistPath | lib/fistpoint.py:7-8 | the exit fistpoint lives at /tmp/fist_LVHDRT_exit |
| FistPoints.CreateEmptyFile | lib/host.py:186-190 | one create-file command is logged; it succeeds unless a fault is injected, and then the file exists and is empty while no other file appears or disappears |
| FistPoints.RemoveFileAt | lib/fistpoint.py:59-61 | one `rm` is logged; it succeeds exactly when no fault hits and the file exists, and then only that file is gone |
| FistPoints.EnableExitOnFistpoint | lib/fistpoint.py:36-38 | sends one command creating /tmp/fist_LVHDRT_exit; it succeeds exactly when the command does not fail, and then the file exists and is empty and no other file changed; a failure leaves every file as it was |
| FistPoints.DisableExitOnFistpoint | lib/fistpoint.py:40-42 | sends one command removing /tmp/fist_LVHDRT_exit; it succeeds exactly when the command does not fail and the file was there (`rm` without `-f`), and then the file is gone and no other file changed; a failure leaves every file as it was |
| FistPoints.FistPoint.constructor | lib/fistpoint.py:32-34 | the fistpoint keeps its host and the normalised name |
| FistPoints.FistPoint.Enable | lib/fistpoint.py:55-57 | creates the flag file, empty, and nothing else |
| FistPoints.FistPoint.Disable | lib/fistpoint.py:59-61 | removes the flag file, failing when it is missing |
| FistPoints.FistPoint.With | lib/fistpoint.py:63-68 | enable, then disable whatever the body did; a failed enable skips the body and the disable, and a failed disable replaces the body's outcome, and a disable that fails after a successful enable leaves an error with the flag file still present; otherwise the flag file is gone afterwards and no other file changed |
| GrantTable.InsideUncachable | tests/xen/test_hvmloader_grant-table.py:36-49 | true exactly when some uncachable range covers the address |
| GrantTable.OnlyPositiveUncachable | tests/xen/test_hvmloader_grant-table.py:46-48 | ranges that are not uncachable, have no positive size, or end at the address never make the check true |
| GrantTable.MoreRangesMonotone | tests/xen/test_hvmloader_grant-table.py:39-49 | more ranges, before or after, keep a true answer true |
| GrantTable.PciIoAddress | tests/xen/test_hvmloader_grant-table.py:22-30 | a result is the first word of the second line read as hexadecimal; it is an error exactly when there are fewer than two lines, the second line has no word or its first word is not hexadecimal, and the error is the IndexError exactly in the first two cases |
| GrantTable.PciIoAddressOfResource | tests/xen/test_hvmloader_grant-table.py:27-30 | a resource file whose second line starts with "0x<hex>" yields that address |
| FsDiff.GlobLiteral | scripts/xcpng-fs-diff.py:86-88 | a pattern without '*' matches exactly the name equal to it |
| FsDiff.StarMatchesAll | scripts/xcpng-fs-diff.py:86-88 | '*' matches every name, '/' included |
| FsDiff.GlobPrefix | scripts/xcpng-fs-diff.py:86-88 | "literal*" matches exactly the names that start with the literal |
| FsDiff.GlobHead | scripts/xcpng-fs-diff.py:86-88 | a matching name starts with the pattern's characters before its first '*' |
| FsDiff.AnyMatch | scripts/xcpng-fs-diff.py:86-90 | true exactly when some pattern of the list matches the name |
| FsDiff.PasswdBackupIgnored | scripts/xcpng-fs-diff.py:69 | an instance illustrating GlobPrefix: "/etc/passwd-" is ignored |
| FsDiff.Mismatch | scripts/xcpng-fs-diff.py:86-88 | a name that differs from the pattern before the pattern's first '*' does not match |
| FsDiff.HostsNotIgnored | scripts/xcpng-fs-diff.py:49-90 | "/etc/hosts" matches none of the 33 ignore patterns |
| FsDiff.FindCommand | scripts/xcpng-fs-diff.py:101-129 | regular files and symlinks to files get the md5sum pipeline; symlinks to directories and broken symlinks get the readlink suffix |
| FsDiff.Put | scripts/xcpng-fs-diff.py:136 | storing a key sets its value; a new key goes last, an existing key keeps its place, and keys stay distinct |
| FsDiff.Entry | scripts/xcpng-fs-diff.py:135-136 | a line gives an entry exactly when it has at least two words |
| FsDiff.ListingFrom | scripts/xcpng-fs-diff.py:133-138 | the parse fails with IndexError exactly when some line has fewer than two words; a result keeps keys distinct |
| FsDiff.ParseListing | scripts/xcpng-fs-diff.py:133-138 | the parse loop over the output's lines computes the listing |
| FsDiff.ListingLastWins | scripts/xcpng-fs-diff.py:134-136 | a path's value is the first word of the last line naming it; paths no line names are untouched |
| FsDiff.Listing | scripts/xcpng-fs-diff.py:131-138 | a listing from the remote output has distinct keys, each with a value; a remote failure is passed on |
| FsDiff.GetFiles | scripts/xcpng-fs-diff.py:140-152 | the four listings under "file", "file_symlink", "dir_symlink" and "broken_symlink", in that order |
| FsDiff.GetFilesFails | scripts/xcpng-fs-diff.py:143-150 | succeeds exactly when all four listings succeed |
| FsDiff.GetFilesStores | scripts/xcpng-fs-diff.py:144-147 | each kind's listing is stored under that kind's key |
| FsDiff.MarkOne | scripts/xcpng-fs-diff.py:156-167 | for one tested path: ignored paths are skipped; an unknown kind raises KeyError; a path missing from the reference is reported; otherwise a different value is reported and the reference entry set to None; nothing else in the reference changes |
| FsDiff.MarkPaths | scripts/xcpng-fs-diff.py:156-167 | pass one over one kind only appends messages and keeps the reference's kinds |
| FsDiff.MarkPathsSound | scripts/xcpng-fs-diff.py:156-167 | pass one over a kind only sets reference values to None, reports only non-ignored paths, never reports a missing tested file, and marks each differing path |
| FsDiff.MarkPathsFails | scripts/xcpng-fs-diff.py:160 | pass one over a kind raises exactly when the reference lacks the kind and some tested path of it is not ignored |
| FsDiff.MarkPathsMarks | scripts/xcpng-fs-diff.py:157-167 | exactly the non-ignored tested paths are set to None in the reference; every other entry keeps its value |
| FsDiff.MarkPathsOthers | scripts/xcpng-fs-diff.py:155-167 | pass one prints nothing about a path it is not given |
| FsDiff.MarkPathsMessagesHead | scripts/xcpng-fs-diff.py:160-165 | the first path of a kind is reported missing from the reference exactly when it is, and as differing exactly when its reference value differs |
| FsDiff.MarkPathsMessages | scripts/xcpng-fs-diff.py:155-165 | for distinct tested paths, a non-ignored path is reported missing from the reference exactly when it is, and as differing exactly when its reference value is another value |
| FsDiff.MarkKinds | scripts/xcpng-fs-diff.py:155-167 | pass one over every tested kind only appends messages and keeps the reference's kinds |
| FsDiff.MarkKindsSound | scripts/xcpng-fs-diff.py:155-167 | all of pass one keeps the soundness of MarkPathsSound |
| FsDiff.Leftover | scripts/xcpng-fs-diff.py:171-176 | reports exactly the non-ignored entries of a kind that still hold a value |
| FsDiff.LeftoverKinds | scripts/xcpng-fs-diff.py:170-176 | pass two reports exactly the non-ignored entries, over every reference kind, that still hold a value |
| FsDiff.CompareSound | scripts/xcpng-fs-diff.py:154-176 | no message is about an ignored path, and no path is reported both as differing and as missing on the tested host |
| FsDiff.UntestedKindReported | scripts/xcpng-fs-diff.py:170-176 | every non-ignored entry of a kind the tested host does not list is reported missing on the tested host |
| FsDiff.MarkKindsUntouched | scripts/xcpng-fs-diff.py:155-167 | pass one leaves alone the table of a kind the tested host does not list |
| FsDiff.MarkPathsUntouched | scripts/xcpng-fs-diff.py:155-167 | pass one over one kind leaves every other kind's table alone |
| FsDiff.Reference.constructor | scripts/xcpng-fs-diff.py:154 | the reference holds its kinds and tables, with the 33 ignore patterns |
| FsDiff.Reference.MarkPath | scripts/xcpng-fs-diff.py:157-167 | the in-place update of one tested path gives MarkOne's messages and tables |
| FsDiff.Reference.MarkListing | scripts/xcpng-fs-diff.py:156-167 | the inner loop of pass one gives MarkPaths' messages, tables and error |
| FsDiff.Reference.PassOne | scripts/xcpng-fs-diff.py:155-167 | the outer loop of pass one gives MarkKinds' messages, tables and error |
| FsDiff.Reference.LeftoverOf | scripts/xcpng-fs-diff.py:171-176 | the inner loop of pass two gives the messages of Leftover |
| FsDiff.Reference.PassTwo | scripts/xcpng-fs-diff.py:170-176 | the outer loop of pass two gives the messages of LeftoverKinds |
| FsDiff.Reference.CompareWith | scripts/xcpng-fs-diff.py:154-176 | `compare_files` prints the messages of pass one, then, unless it raised, those of pass two, and leaves the reference as pass one marked it |
| FsDiff.MainPlan | scripts/xcpng-fs-diff.py:210-223 | the reference is read before the parameter check: from a non-empty load file, else from a non-empty reference host, which is then saved exactly when a non-empty save file is given; parameters are missing exactly when there is no tested host, no reference source, or the loaded file held null |
| FsDiff.MainStatus | scripts/xcpng-fs-diff.py:221-231 | -1 exactly for missing parameters, 0 exactly otherwise |
| FsDiff.SavedWithoutTestHost | scripts/xcpng-fs-diff.py:214-223 | a reference host with a save file but no tested host is still listed and saved before the run reports missing parameters |
| LegacyCommon.VmImage | lib/common.py:7-12 | an unknown key is an error; otherwise the result ends with the table entry, is the entry itself when it starts with "http", and is a URL when either the entry or the default location is one |
| LegacyCommon.VmImageIdempotent | lib/common.py:7-12 | resolving an already resolved entry again gives the same URL, when the default location is a URL |
| LegacyCommon.ToXapiBool | lib/common.py:77-78 | "true" exactly for true and "false" exactly for false |
| LegacyCommon.WaitFrom | lib/common.py:17-28 | a wait makes at least one more call |
| LegacyCommon.WaitFor | lib/common.py:14-28 | the polling loop's outcome and number of calls are those of the recursive wait, with at least one call and one sleep between successive calls |
| LegacyCommon.WaitForNot | lib/common.py:30-31 | the same with the truthiness inverted |
| LegacyCommon.WaitStopsAtFirst | lib/common.py:18-27 | a wait succeeds exactly when its last call is satisfied, no earlier call was, and a failure carries the timeout message |
| LegacyCommon.MaxCalls | lib/common.py:24-27 | a never-satisfied wait makes at least one call |
| LegacyCommon.NeverSatisfiedFrom | lib/common.py:18-28 | a wait whose calls are never satisfied raises the timeout exception after exactly MaxCalls calls |
| LegacyCommon.MaxCallsIsCeiling | lib/common.py:24-25 | that number is max(1, ceil(timeout / delay)) |
| LegacyCommon.NeverSatisfiedFourByTwo | lib/common.py:14-28 | an instance illustrating NeverSatisfiedFrom: a timeout of 4 and a delay of 2 give exactly two calls, then the exception |
| LegacyCommon.RunOutcome | lib/common.py:60-66 | a checked process raises CalledProcessError exactly on a nonzero return code; otherwise the stripped output |
| LegacyCommon.SshOutcome | lib/common.py:60-75 | raises exactly when checked with a nonzero code or on code 255; SSHException exactly when unchecked with 255; otherwise the plain process outcome |
| LegacyCommon.SshCheckedIsChecked | lib/common.py:65-70 | with a check, ssh is the plain checked call: the 255 rule never fires |
| LegacyCommon.SshUncheckedRaisesOn255 | lib/common.py:68-70 | without a check, ssh raises exactly on return code 255, with the "SSH Error" message |
| LegacyCommon.XeLine | lib/common.py:100-106 | the line is "xe", the action, "--minimal" when asked, then one word per argument |
| LegacyCommon.XeLineArgs | lib/common.py:103 | each argument word splits at its first '=' back into its key and value |
| LegacyCommon.ToXe | lib/common.py:216-337 | exactly the disk listing is sent with --minimal |
| LegacyCommon.ToXeInjective | lib/common.py:216-337 | different handle calls make different xe calls |
| LegacyCommon.LegacyHost.constructor | lib/common.py:81-87 | a new host has no uuid and has sent no call and no command line |
| LegacyCommon.LegacyHost.Xe | lib/common.py:100-106 | the call is recorded, the command line sent is XeLine of its xe call, and its outcome is the checked reply to that command |
| LegacyCommon.FirstField | lib/common.py:233 | the text before the first ',' of a line: a comma-free prefix ending at the line's end or at a ',' |
| LegacyCommon.FirstFields | lib/common.py:232-233 | one VDI per line, each the first field of its line |
| LegacyCommon.RunCount | lib/common.py:241-242 | a run of checked commands returns exactly when none fails; otherwise it stops at the first failing one and raises its error |
| LegacyCommon.RunCountStopsAt | lib/common.py:241-242 | a run stops right after its first failing command |
| LegacyCommon.RunCountAll | lib/common.py:241-242 | a run in which nothing fails sends every command |
| LegacyCommon.VdiDestroys | lib/common.py:236-242 | one vdi-destroy per VDI |
| LegacyCommon.VdiDestroysAt | lib/common.py:241-242 | the i-th destroy is of the i-th VDI |
| LegacyCommon.VdiDestroysPrefix | lib/common.py:241-242 | destroying the first n VDIs sends the first n destroys of the whole list |
| LegacyCommon.BaseDestroyOrder | lib/common.py:240-243 | BaseVM.destroy sends a prefix of "each VDI destroy in order, then the VM destroy"; it succeeds exactly when the listing and every destroy succeed; the VM record is destroyed only after every VDI destroy succeeded |
| LegacyCommon.DestroyListedOrder | lib/common.py:241-243 | the same once the listing is known |
| LegacyCommon.VmDestroyShutsDownUnlessHalted | lib/common.py:333-338 | VM.destroy reads the power state first and forces a shutdown exactly when it is not "halted" |
| LegacyCommon.LegacyVm.constructor | lib/common.py:246-249 | a new VM handle has its uuid and host, no IP and no previous host |
| LegacyCommon.LegacyVm.ParamGet | lib/common.py:216-227 | one vm-param-get; its value on success, None only for a missing map key the caller accepts, otherwise the error is re-raised |
| LegacyCommon.LegacyVm.VdiUuids | lib/common.py:229-234 | one disk listing; its error raises, otherwise the first field of every line, in order |
| LegacyCommon.LegacyVm.DestroyVdis | lib/common.py:241-242 | one vdi-destroy per VDI in order, stopping at the first that raises, as RunCount says |
| LegacyCommon.LegacyVm.DestroyAll | lib/common.py:241-243 | the VDI destroys, then the record's, as DestroyListed says |
| LegacyCommon.LegacyVm.BaseDestroy | lib/common.py:240-243 | the listing, then the commands and outcome BaseDestroyOrder characterises |
| LegacyCommon.LegacyVm.DestroyInStateOf | lib/common.py:336-338 | a forced shutdown unless the state is "halted", then BaseVM.destroy |
| LegacyCommon.LegacyVm.Destroy | lib/common.py:333-338 | exactly the commands and outcome of VmDestroySpec, which VmDestroyShutsDownUnlessHalted characterises |
| LegacyCommon.LegacyVm.TryGetAndStoreIp | lib/common.py:274-281 | stores the IP and returns true exactly for a non-empty address; a missing key or an empty address returns false and keeps the IP; any other error raises |
| LegacyCommon.LegacyVm.Migrate | lib/common.py:346-351 | on success the VM's host becomes the target and its previous host the old host; a failing xo-cli call raises and changes neither |
| HostHandle.XeCommand | lib/host.py:130-146 | the command has "xe", the action, the two optional flags and exactly one token per argument |
| HostHandle.XeCommandLayout | lib/host.py:132-146 | "xe" and the action come first, "--minimal" then "--force" when asked, then each argument's token in dictionary order |
| HostHandle.StringifyScalars | lib/host.py:135-143 | a boolean renders as key=true or key=false, any other scalar as key= followed by its shell-quoted value |
| HostHandle.StringifySubKeys | lib/host.py:138-142 | a dictionary value renders as its key:subkey=subvalue items joined by single spaces, with no trailing space; an empty dictionary renders empty |
| HostHandle.InventoryEntry | lib/host.py:228-229 | a line is accepted exactly when splitting it at '=' gives two pieces |
| HostHandle.GetXensourceInventory | lib/host.py:224-230 | the loop builds exactly the inventory dictionary of the file's lines, or raises at the first bad line |
| HostHandle.InventoryPrefixFails | lib/host.py:227-229 | once a prefix of the lines fails, the whole file fails with the same error |
| HostHandle.InventoryFails | lib/host.py:227-229 | parsing raises exactly when some line does not hold exactly one '=' |
| HostHandle.InventoryLastWins | lib/host.py:227-229 | every line of a parsed file is well formed, and a key holds the value of the last line naming it |
| HostHandle.InventoryEntryOf | lib/host.py:228-229 | a line KEY='value' gives back the key and the unquoted value |
| HostHandle.VmCacheKeyInjective | lib/host.py:288-290 | two URIs have the same cache key exactly when they agree once ".xva" is stripped |
| HostHandle.CompareRelease | lib/host.py:700-704 | the version comparison is -1, 0 or 1 |
| HostHandle.CompareReleaseAntisymmetric | lib/host.py:700-704 | comparing the other way round gives the opposite result |
| HostHandle.CompareReleaseZeroPadded | lib/host.py:700-704 | a trailing zero component does not change the comparison (8.3 equals 8.3.0) |
| HostHandle.VarstoreDirOf | lib/host.py:700-704 | uefistored's directory exactly for releases before 8.3, varstored's otherwise |
| HostHandle.ParseRelease | lib/host.py:68 | a parsed release has one component per dot-separated piece |
| HostHandle.FirstRule | lib/host.py:453-457 | the index found is the first separator line; none exactly when no line is a separator |
| HostHandle.GetLastYumHistoryTid | lib/host.py:427-465 | the listing is used, or the retry listing when the first one failed; the result is the transaction id under the first separator line, or the source's error |
| HostHandle.YumHistoryNoRule | lib/host.py:459-460 | "Unable to get yum transactions" exactly when the listing has no separator line |
| HostHandle.TidOfLinesReads | lib/host.py:462-463 | with "<n> ..." on the line after the first separator, the id is n |
| HostHandle.Unmounted | lib/host.py:563-590 | a disk is kept exactly when it is in the list and lsblk prints no mountpoint for it |
| HostHandle.AvailableDisks | lib/host.py:575-590 | fails exactly when a listing line has fewer than two fields; otherwise the disks whose sector size is the block size, without mountpoints, in listing order |
| HostHandle.SectorMatchesMembers | lib/host.py:584-589 | every line has two fields, and a disk is listed exactly when some line names it with the wanted sector size |
| HostHandle.HostData | lib/host.py:42-49 | a host's own entry when it has one, otherwise the default user and password |
| HostHandle.Missing | lib/host.py:516 | a package is missing exactly when it was saved and is not installed |
| HostHandle.Extra | lib/host.py:517 | a package is extra exactly when it is installed, was not saved and is not a gpg-pubkey |
| HostHandle.FirstSuiting | lib/host.py:298-305 | the VM found carries the key and fits the SR |
| HostHandle.FirstSuitingIsFirst | lib/host.py:298-305 | when some VM fits, one is found, no later than any that fits |
| HostHandle.FirstSuitingNone | lib/host.py:306 | when none is found, no VM fits |
| HostHandle.CachedVmLookup | lib/host.py:292-306 | without SR the lookup raises; otherwise it finds the lowest-UUID VM carrying the key that fits the SR, and none exactly when no VM carrying the key fits |
| HostHandle.Host.constructor | lib/host.py:54-68 | a new handle has its plane, address, credentials, pool, UUID and release, and no saved yum state |
| HostHandle.Host.YumSaveState | lib/host.py:493-498 | refuses when a list is already saved; otherwise saves the package list, and the transaction id exactly when it can be read |
| HostHandle.Host.YumRestoreSavedState | lib/host.py:500-524 | succeeds exactly when a state was saved, the rollback succeeds and no package is missing or extra; success clears the saved state, failure keeps it |
| HostHandle.Host.CachedVm | lib/host.py:292-306 | the search loop returns what the lookup specification says |
| HostHandle.Host.CloneCleared | lib/host.py:317-318 | the clone and the description clear are logged in order, succeed exactly when no fault is injected, and leave a fresh, halted, undescribed clone |
| HostHandle.Host.CloneFromCache | lib/host.py:317-321 | clone, clear and (for clone+start) start are logged in order up to the first failure; success exactly without injected faults, and then a fresh clone in the requested power state, all other VMs unchanged |
| HostHandle.Host.MoveVifs | lib/host.py:344-345 | only VIF records change; on success every VIF is on the network |
| HostHandle.Host.ImportNamed | lib/host.py:339-342 | vm-import is logged first; on success a fresh VM named with the test prefix, the other VMs unchanged |
| HostHandle.Host.ImportFresh | lib/host.py:329-350 | the import, the prefixed name, every VIF on the management network, and the cache key when cached |
| HostHandle.Host.ImportVm | lib/host.py:308-350 | a refusal and a reuse change nothing; a clone hit logs a prefix of the clone commands and succeeds exactly without injected faults; a miss imports |
| HostHandle.NewHost | lib/host.py:54-68 | a host is made exactly when the inventory parses, holds INSTALLATION_UUID and PRODUCT_VERSION, and the version parses; it then carries the parsed UUID and release and the host data's credentials |
| VmHandle.CacheKeyFindsSaved | lib/vm.py:786-795 | the key a definition derives is the cache id under which the producing test saved its VM, when the image test names that test, the image VM names that VM, and IMAGE_EQUIVS does not redirect the key |
| VmHandle.CacheIdSeparatesVms | lib/vm.py:792 | two VMs of the same test and revision get different keys |
| VmHandle.ToolsVersionFields | lib/vm.py:383-386 | the version string splits back into major, minor, micro and build |
| VmHandle.MessageUuidsFails | lib/vm.py:435-438 | the listing raises exactly when some non-empty line has no ':' |
| VmHandle.MessagesRoundTrip | lib/vm.py:428-438 | parsing xe's listing of some messages gives back their UUIDs, in order |
| VmHandle.GetEfiVar | lib/vm.py:479-489 | nothing for an absent variable; otherwise the file's content after its 4 attribute bytes |
| VmHandle.EfiVarRoundTrip | lib/vm.py:454-489 | reading a variable written as 4 attribute bytes and data gives back the data |
| VmHandle.SplitBytes | lib/vm.py:510 | splitting always gives at least one piece, and no piece holds the separator |
| VmHandle.SplitBytesJoin | lib/vm.py:510 | joining the pieces with the separator gives back the input |
| VmHandle.FirstToken | lib/vm.py:518 | the first word holds no whitespace byte |
| VmHandle.LeadingSpaces | lib/vm.py:518 | the count of whitespace bytes that `split()` skips before the first word: all of them whitespace, and the next byte is not |
| VmHandle.FirstTokenShape | lib/vm.py:518 | the first word is the slice right after the leading whitespace, ends at a whitespace byte or the end, and is empty exactly when the input is all whitespace |
| VmHandle.Ascii | lib/vm.py:518 | decoding succeeds exactly when every byte is below 128, and gives the same code points |
| VmHandle.WithMagic | lib/vm.py:514-515 | the lines kept hold the magic, and are no more than the listing's |
| VmHandle.GetAllEfiBins | lib/vm.py:502-521 | the loop returns exactly the paths of the lines holding the magic, or the first decoding error |
| VmHandle.EfiBinsErrPrefix | lib/vm.py:514-519 | once a prefix of the listing raises, the whole listing raises the same error |
| VmHandle.WithMagicMembers | lib/vm.py:514-515 | the lines kept are exactly the lines holding the magic |
| VmHandle.EfiBinsPaths | lib/vm.py:514-519 | one binary per line holding the magic, in order, each that line's first word |
| VmHandle.EfiBinsFails | lib/vm.py:514-519 | the listing raises exactly when the first word of some line holding the magic is not ASCII |
| VmHandle.FirstTokenOfLine | lib/vm.py:507-518 | a line "<path> <header>" yields its path |
| VmHandle.MagicHeaderFound | lib/vm.py:507-515 | a file whose header is the magic is found |
| VmHandle.MigrationParamsMeaning | lib/vm.py:228-272 | fails only for an unknown VM or a missing first disk; live exactly for a running VM; storage motion exactly across pools, for another SR or for a network, with the target master's credentials, every disk mapped to the SR or the pool default, and every VIF mapped exactly across pools |
| VmHandle.SameSrIsNoStorageMotion | lib/vm.py:236-239 | migrating to the VM's own SR within its pool moves no storage |
| VmHandle.Vm.constructor | lib/vm.py:30-33 | a new handle has its uuid and host, no IP and no previous host |
| VmHandle.Vm.TryGetAndStoreIp | lib/vm.py:88-98 | true exactly for a present, non-empty, non-link-local address, which is then stored; otherwise the IP is kept |
| VmHandle.Vm.Shutdown | lib/vm.py:61-76 | both force flags are refused before anything is sent; otherwise one shutdown, retried once by force when force_if_fails; success exactly when a try is not hit by a fault, and then the VM is halted |
| VmHandle.Vm.HaltForDestroy | lib/vm.py:209-210 | a halted VM is left alone; any other is shut down by force, halted exactly when no fault hits |
| VmHandle.Vm.DestroyDisks | lib/vm.py:214-215 | the disks' destroys are logged in order up to the first failure; success exactly without faults on distinct known VDIs, and then exactly those VDIs are gone and nothing else changes but disk lists |
| VmHandle.Vm.DestroyHalted | lib/vm.py:214-216 | the disk destroys, then the VM destroy, logged in order; success exactly without faults on distinct disks, removing the VM and its disks |
| VmHandle.Vm.Destroy | lib/vm.py:208-216 | an unknown VM raises with nothing sent; otherwise the forced shutdown unless halted, each disk destroy and the VM destroy, logged in order up to the first failure; success exactly without faults, removing the VM and exactly its disks |
| VmHandle.Vm.DestroyKnown | lib/vm.py:209-216 | the same for a VM the plane knows |
| VmHandle.Vm.Clone | lib/vm.py:557-562 | one vm-clone, named "<name>_clone_for_tests" by default; success exactly without fault on a known VM, giving a fresh handle on the new VM with the base's description and as many disks |
| VmHandle.Vm.Migrate | lib/vm.py:228-276 | bad parameters raise with nothing sent; otherwise one vm-migrate with the parameters MigrationParams describes; on success the disks are on the mapped SRs, the host is the target and the previous host the old one |
| VmHandle.Vm.DropCached | lib/vm.py:774-779 | the loop ends, and on success no VM cached for the id fits the host's main SR |
| VmHandle.Vm.CloneAsCache | lib/vm.py:781-783 | the clone named "<name> cache" carries the cache key and is the only cached VM for the id the lookup can find |
| VmHandle.Vm.SaveToCache | lib/vm.py:771-783 | without a main SR nothing is sent; on success a fresh clone is the one cached VM for the id |
| VmHandle.BuildDiskMap | lib/vm.py:257-259 | the map's keys are exactly the disks, all mapped to the SR |
| VmHandle.BuildVifMap | lib/vm.py:267-269 | the map's keys are exactly the VIFs, all mapped to the network |
| VmHandle.CachedSlotAfter | lib/vm.py:781-783 | a clone given the key after the old cached VMs are gone is the lookup's only candidate |
| VmHandle.OnlyCandidate | lib/vm.py:292-306 | when one VM is the only one carrying the key that could fit, the lookup finds it exactly when it fits |
| VmHandle.MigrationParamsOf | lib/vm.py:228-270 | the parameter-building loops give exactly what MigrationParams describes |
| Fixtures.HostList | conftest.py:209-211 | no entry of the chained list holds a ',' |
| Fixtures.HostListConcat | conftest.py:210-211 | chaining respects concatenation of the option values |
| Fixtures.HostListEmpty | conftest.py:210-221 | each value gives at least one entry, so the list is empty exactly when no --hosts is given |
| Fixtures.HostListOfJoined | conftest.py:210-211 | one value of comma-free names joined by ',' gives those names back |
| Fixtures.CacheEntryRest | conftest.py:165-173 | a "cache://" entry splits at its first ':' into "cache" and a rest starting with "//" |
| Fixtures.NestedImportRoute | conftest.py:173-175 | the nest serves "clone:<rest>" by a fresh clone of a cached VM or by an import, never refused and never an existing VM |
| Fixtures.ImportNested | conftest.py:174-175 | on success the nested host's VM did not exist before |
| Fixtures.DestroyEach | conftest.py:203-206 | nothing is sent for no VM; on success every VM listed existed, exactly those are gone, and no VDI appears |
| Fixtures.HostsFixture.constructor | conftest.py:161 | the fixture starts with no nested VM |
| Fixtures.HostsFixture.SetupHost | conftest.py:163-201 | a plain entry is its own address with nothing sent; a cache entry without nest or main SR fails; a successful cache entry tracks one new running VM whose one ARP address is the result |
| Fixtures.HostsFixture.CleanupHosts | conftest.py:203-206 | with no nested VM nothing is sent; on success exactly the nested VMs are gone |
| Fixtures.HostsFixture.Hosts | conftest.py:159-222 | success gives one host per entry, plain entries as given; with no cache entry the result is the entries, or the "at least one --hosts" failure for none; a failed clean-up fails the fixture, and a failure after a clean-up leaves no nested VM |
| Fixtures.ValidateDefs | conftest.py:540-553 | no marker raises; the definitions are kept in order exactly when each is accepted |
| Fixtures.AcceptedIsExclusive | conftest.py:547-550 | a definition is accepted exactly when it has a name and exactly one of template and image_test |
| Fixtures.RecordPhase | conftest.py:143-152 | the stash gets this phase's report and keeps every other phase's |
| Fixtures.SkippedCallExports | conftest.py:571-579 | a passed setup with a skipped call passes the gate as written |
| Fixtures.ExportGate | conftest.py:567-579 | the gate raises exactly for reports without setup, and opens exactly when setup and call both passed |
| Fixtures.GatesDiffer | conftest.py:571-575 | the written and intended gates differ exactly for reports with a skipped phase and no failed one |
| Fixtures.GateAfterPhases | conftest.py:143-152 | after the setup and call reports are recorded, the gate opens exactly when both passed |
| Fixtures.SrDisk | conftest.py:337-371 | succeeds exactly for one option value that is "auto" with some disk available, or a disk available; the result is available, the first one for "auto", the named one otherwise |
| Fixtures.Shared | conftest.py:388-422 | the shared candidates are exactly the candidates every other host has, no more than the candidates |
| Fixtures.NarrowIsShared | conftest.py:388-422 | narrowing host by host gives exactly the shared candidates, in candidate order |
| Fixtures.SharedFirst | conftest.py:400 | a candidate available everywhere makes the shared list non-empty, its head no later than that candidate |
| Fixtures.SharedAll | conftest.py:431 | when no candidate drops out, every candidate is available on every host |
| Fixtures.NarrowCandidates | conftest.py:388-422 | the nested filtering loops give the shared candidates |
| Fixtures.SrDiskForAllHosts | conftest.py:373-400 | succeeds exactly for one option value, a non-empty master list, a named disk on the master, and a shared candidate; the result is the first shared candidate |
| Fixtures.SrDiskForAllHostsMeaning | conftest.py:373-400 | the disk chosen is on the master and every member, the named disk if one is named, else the first master disk available everywhere |
| Fixtures.SrDisksForAllHosts | conftest.py:402-434 | succeeds exactly for some option, master disks, named disks all on the master, and a non-empty (auto) or complete (named) shared list; the result is the shared list |
| Fixtures.SrDisksNamedMeaning | conftest.py:429-432 | without "auto", success means exactly the named disks, each on every member |
| Fixtures.VmRef | conftest.py:436-456 | the option, else the marker, else the global default; a UUID or http URL is kept, any other image key fails exactly when unknown |
| Fixtures.VmRefSettles | conftest.py:436-456 | a resolved reference given again as --vm resolves to itself |
| Fixtures.VifNetwork | lib/vm.py:296-301 | a resolved network is non-empty |
| Fixtures.VifNetworkOk | lib/vm.py:296-301 | an entry is accepted exactly when one of network UUID and name is given and a given name is found; the UUID or the found network is used |
| Fixtures.Min | conftest.py:577 | zip makes as many pairs as the shorter list |
| Fixtures.CreateVms.constructor | conftest.py:555-557 | the tracked lists start empty |
| Fixtures.CreateVms.InstallVm | lib/host.py:383-390 | without main SR nothing is sent; otherwise one vm-install, succeeding exactly without fault, with a new VM under the prefixed name, tracked at once; the template's disks are not modelled, so the new VM has none |
| Fixtures.CreateVms.PlugDisk | conftest.py:616-618 | vbd-create then userdevice, in order; success exactly without faults on a known VM and VDI; the VBD is tracked as soon as it exists and plugs the VDI as the VM's last disk |
| Fixtures.CreateVms.AddDisk | conftest.py:611-618 | without main SR nothing is sent; otherwise VDI, VBD and userdevice in order, each tracked as soon as it exists; success exactly without faults on a known VM |
| Fixtures.CreateVms.AddDisks | conftest.py:610-618 | success exactly for no entry or a known VM, a main SR and no fault; then three commands, one VDI and VBD tracked per entry, and the VM's disks extended by exactly the new VDIs |
| Fixtures.CreateVms.AddCdDrive | conftest.py:620-621 | vbd-create then userdevice, success exactly without faults on a known VM, leaving an empty CD drive; VMs and VDIs unchanged |
| Fixtures.CreateVms.AddVif | lib/vm.py:296-306 | a refused network sends nothing; otherwise one vif-create, succeeding exactly on a known VM without fault |
| Fixtures.CreateVms.AddVifs | conftest.py:623-627 | success exactly when every network resolves and, with entries, the VM is known and no fault hits; then exactly the vif-creates in order |
| Fixtures.CreateVms.SetParams | conftest.py:629-632 | success exactly for no entry, or a known VM without fault; then exactly the param-sets in order |
| Fixtures.CreateVms.FurnishVm | conftest.py:610-632 | success exactly when every network resolves and no fault hits; then the whole furnishing is sent and the VM's disks grow by exactly the new tracked VDIs |
| Fixtures.CreateVms.CreateVm | conftest.py:599-632 | without main SR nothing is sent; success exactly with a main SR, resolving networks and no fault; then one new tracked VM whose disks are exactly the new tracked disks (templates are modelled without disks) |
| Fixtures.CreateVms.FindCached | conftest.py:635-638 | succeeds exactly when the key derives, there is a main SR, and the lookup finds a VM, which is returned |
| Fixtures.CreateVms.CloneBase | conftest.py:642 | one vm-clone, succeeding exactly without fault, adding exactly one VM under the name and leaving the base untouched |
| Fixtures.CreateVms.CloneForTest | conftest.py:640-646 | clone then description clear, in order; success exactly without faults; the clone is tracked as soon as it exists, ends up with an empty description, and the base is untouched |
| Fixtures.CreateVms.CloneForTestAsWritten | conftest.py:640-646 | as written the clone is tracked only after the description is cleared, so a failed clear leaves an untracked clone |
| Fixtures.CreateVms.VmFromCache | conftest.py:634-646 | the corrected fixture (clone tracked at once, see Findings): a lookup that finds nothing raises with nothing sent; otherwise the clone for the test, tracked, with an empty description |
| Fixtures.CreateVms.DestroyVbds | conftest.py:586-588 | the VBD destroys in order up to the first failure; they succeed for distinct existing VBDs without fault, and then none remains |
| Fixtures.CreateVms.DestroyVdis | conftest.py:589-591 | the VDI destroys in order up to the first failure; they succeed for distinct existing VDIs without fault, and then exactly those are gone |
| Fixtures.CreateVms.Teardown | conftest.py:585-594 | VBDs, then VDIs, then VMs; on success every tracked VM existed, exactly those are gone, and no tracked VDI is left |
| Fixtures.CreateVms.SaveOne | lib/vm.py:771-783 | on success the VM has a cached copy under the id |
| Fixtures.CreateVms.SavePairs | conftest.py:577-579 | no pair sends nothing; on success the last pair's VM has a cached copy under "<node id>-<name>-<revision>" |
| Fixtures.CreateVms.ExportVms | conftest.py:566-579 | the corrected fixture (export gate on passed phases, see Findings): a closed gate sends nothing, a missing setup report raises; an open gate saves the pairs |
| Fixtures.CreateVms.SetupVms | conftest.py:558-563 | the corrected fixture (clone tracked at once, see Findings): every VM that appears is tracked, the tracked list only grows, and success tracks one VM per definition |
| Fixtures.CreateVmsFixture | conftest.py:494-594 | the corrected fixture (clone tracked at once, export gate on passed phases, see Findings): a refused marker sends nothing; a failed teardown fails the fixture; after a successful teardown without export no VM is left beyond those there before |
| Fixtures.ImportBase | conftest.py:465 | without main SR nothing is sent; the VM served exists and every earlier VM remains; without the cache it is new |
| Fixtures.ImportedVmSetup | conftest.py:459-475 | the VM handed over exists, is new exactly when cloned or imported, has an empty description under the cache; an existing VM without the cache is reused with nothing sent |
| Fixtures.TeardownTestsDiffer | conftest.py:467-480 | the written and intended teardown tests differ exactly for an existing VM under CACHE_IMPORTED_VM |
| Fixtures.ImportedVmTeardown | conftest.py:478-480 | no destroy sends nothing; a successful destroy removes exactly that VM |
| Fixtures.ImportedVmFixtureAsWritten | conftest.py:458-480 | for an existing VM under CACHE_IMPORTED_VM, the clone made for the tests is left in the pool |
| Fixtures.ImportedVmFixture | conftest.py:458-480 | after a clean teardown the VM the tests used is in the pool exactly when it was there before |
| EfiBytes.LE | lib/efi.py:79-85 | a little-endian integer field of width `w` is exactly `w` bytes long |
| EfiBytes.FromLE | lib/efi.py:79-85 | the number read back from `w` bytes is below 256^w |
| EfiBytes.LERoundTrip | lib/efi.py:79-85 | an integer that fits its field reads back from its little-endian bytes unchanged |
| EfiBytes.FromLERoundTrip | lib/efi.py:79-85 | reading bytes as a number and packing that number at the same width gives the same bytes |
| EfiBytes.FromLEInjective | lib/efi.py:79-85 | two byte strings of one width that read as the same number are equal |
| EfiBytes.Field | lib/efi.py:73-76 | one packed field is exactly as wide as its code: 1 byte for 'B', 2 for 'H', 4 for 'I', 16 for '16s' |
| EfiBytes.EfiPackSucceeds | lib/efi.py:79-85 | `efi_pack` succeeds exactly when there is one value per code and each value fits its code; otherwise struct.error |
| EfiBytes.EfiPackSize | lib/efi.py:79-85 | with the '<' prefix a packed structure has no padding: its length is the sum of its codes' widths |
| EfiBytes.EfiPackCons | lib/efi.py:79-85 | one more leading field puts its bytes in front of the rest of the structure |
| EfiBytes.EfiPackOne | lib/efi.py:79-85 | a one-field structure packs to that field's bytes |
| EfiBytes.EfiPackAppend | lib/efi.py:79-85 | packing the concatenation of two formats with their values is the concatenation of the two packings, as the joined format strings rely on |
| EfiBytes.EfiPackField | lib/efi.py:79-85 | field `k` of a packed structure is found at the summed widths of the fields before it and holds that field's packing |
| EfiBytes.EfiPackIntField | lib/efi.py:79-85 | an integer field of a packed structure, read back little-endian from its offset, is the value packed |
| EfiBytes.AsBytes | lib/efi.py:50-52 | `GUID.as_bytes` is 8 bytes of fields followed by the last part of the GUID |
| EfiBytes.AsBytesInjective | lib/efi.py:50-52 | two well-formed GUIDs with the same 16-byte form are the same GUID |
| EfiBytes.PackGuid | lib/efi.py:88-94 | succeeds exactly when the three fields fit 4, 2 and 2 bytes and every element of data4 is a byte; the result reads back as data1, data2, data3 and then data4 |
| EfiBytes.PackGuidIsAsBytes | lib/efi.py:88-94 | `pack_guid` of a GUID's fields is that GUID's `bytes_le` form |
| EfiBytes.Utf16Char | lib/efi.py:226 | a character encodes to one 16-bit unit, or to a surrogate pair of two |
| EfiBytes.Utf16Le | lib/efi.py:226 | the UTF-16LE form of a name is at least two bytes per character |
| EfiBytes.Utf16Ascii | lib/efi.py:226 | an ASCII variable name encodes to exactly two bytes per character: the character's code, then zero |
| Efi.SignatureListSize | lib/efi.py:131-132 | EFI_SIGNATURE_LIST packs to 28 bytes |
| Efi.SignatureDataSize | lib/efi.py:129-130 | EFI_SIGNATURE_DATA packs to 16 bytes |
| Efi.WinCertificateUefiGuidSize | lib/efi.py:110-112 | WIN_CERTIFICATE_UEFI_GUID packs to 24 bytes |
| Efi.EfiTimeSize | lib/efi.py:114-126 | EFI_TIME packs to 16 bytes |
| Efi.X509GuidBytes | lib/efi.py:108 | EFI_CERT_X509_GUID is 16 bytes |
| Efi.X509GuidPacked | lib/efi.py:108 | the `pack_guid` call for EFI_CERT_X509_GUID succeeds and yields the X.509 GUID's 16-byte form |
| Efi.Pkcs7GuidPacked | lib/efi.py:99-104 | the `pack_guid` call for EFI_CERT_PKCS7_GUID succeeds and yields the PKCS#7 GUID's 16-byte form |
| Efi.VatesGuidPacked | lib/efi.py:106 | the `pack_guid` call for VATES_GUID succeeds and yields the owner GUID's 16-byte form |
| Efi.GetSecureBootGuid | lib/efi.py:138-145 | defined exactly for PK, KEK, db and dbx (KeyError otherwise); PK and KEK get the global-variable GUID, db and dbx the image-security-database GUID |
| Efi.SigListHeader | lib/efi.py:167-174 | the EFI_SIGNATURE_LIST header packs to the type GUID, the list size, a zero header size and the signature size, 4 bytes each |
| Efi.SigListSlices | lib/efi.py:167-177 | a signature list's bytes split at offsets 16, 20, 24, 28 and 44 into type, sizes, owner and certificate |
| Efi.SigDataOwner | lib/efi.py:175 | EFI_SIGNATURE_DATA of the Vates owner packs to the owner GUID's 16 bytes |
| Efi.CertToEfiSigListBytes | lib/efi.py:148-177 | a certificate gives a signature list exactly when the list size fits in 32 bits, and the list is then header, owner GUID and certificate |
| Efi.CertToEfiSigListLayout | lib/efi.py:161-177 | the list starts with EFI_CERT_X509_GUID, SignatureListSize is the list's own length, the header size is 0, SignatureSize is the length less 28, then the Vates owner and the DER certificate |
| Efi.SigDbSucceeds | lib/efi.py:180-192 | the database is built exactly when every certificate file loads and fits a signature list |
| Efi.ParseSigDbCons | lib/efi.py:148-177 | a reader of signature lists steps over one list built from a certificate and yields that certificate first |
| Efi.SigDbRoundTrip | lib/efi.py:180-192 | a database built from certificate files reads back as exactly those certificates, one per file, in order |
| Efi.SigDbStartsWithX509 | lib/efi.py:161-192 | a database of at least one certificate starts with EFI_CERT_X509_GUID |
| Efi.SigDbStep | lib/efi.py:187-190 | one iteration of the accumulation loop: a load or list error becomes the result, otherwise the database grows by that certificate's list |
| Efi.CertsToSigDb | lib/efi.py:180-192 | the loop's result is the database of the certificate list (a lone path counting as a one-element list), or the first error |
| Efi.EfiTimeBytes | lib/efi.py:207-220 | the timestamp packs to the year in 2 bytes, month, day, hour, minute and second in 1 byte each, then nine zero bytes |
| Efi.EfiTimestamp | lib/efi.py:207-220 | the timestamp of `sign_efi_sig_db` is 16 bytes |
| Efi.TimeLayout | lib/efi.py:114-126 | an EFI_TIME's bytes hold the year at 0-1, the other date and time fields at 2-6 and zeros from 7 on |
| Efi.EfiTimestampFields | lib/efi.py:207-220 | the date and time read back from the timestamp are the ones given, and its pad, nanosecond, time-zone and daylight fields are zero |
| EfiSigning.WinCertBytes | lib/efi.py:272 | WIN_CERTIFICATE packs to the length in 4 bytes, revision 0x200 and type 0x0EF1 in 2 bytes each |
| EfiSigning.CreateAuth2HeaderBytes | lib/efi.py:268-275 | the header exists exactly when the PKCS#7 length plus 24 fits in 32 bits; it is then the timestamp, that length, 0x200, 0x0EF1 and EFI_CERT_PKCS7_GUID |
| EfiSigning.AttributesBytes | lib/efi.py:97 | EFI_AT_ATTRS_BYTES is the attributes 0x27 as a 4-byte field |
| EfiSigning.VendorGuid | lib/efi.py:201-202 | a given GUID is used as it is; without one, the variable's secure-boot GUID, with its KeyError |
| EfiSigning.SignEfiSigDbBytes | lib/efi.py:195-243 | signing fails exactly for an unknown variable without a GUID or a PKCS#7 blob too long for its header; otherwise the output is header, then the blob over name (UTF-16LE), GUID, attributes, timestamp and database, then the database |
| EfiSigning.ParseAuth2 | lib/efi.py:268-275 | a parsed authentication header reassembles, with its certificate data and the variable data, into exactly the bytes it was read from |
| EfiSigning.ParseAuth2Split | lib/efi.py:268-275 | bytes whose dwLength is in range split into timestamp, length, revision, type, type GUID, certificate data and data |
| EfiSigning.SignEfiSigDbParses | lib/efi.py:243 | a signed database reads back as its timestamp, revision 0x200, type EFI_GUID, the PKCS#7 GUID, the blob over the payload and the database |
| EfiSigning.IndexFrom | lib/efi.py:515 | `bytes.index` yields the first position at or after the start where the pattern occurs, or ValueError when it occurs nowhere there |
| EfiSigning.EslFromAuthBytes | lib/efi.py:508-515 | the result is the suffix from the first occurrence of EFI_CERT_X509_GUID; ValueError exactly when the GUID does not occur |
| EfiSigning.RecoverDb | lib/efi.py:508-515 | behind a 40-byte header with the shape of an authentication header, the first X.509 GUID is the start of the database, which is what remains |
| EfiSigning.EslFromSignedSigDb | lib/efi.py:195-243 | reading the signature list out of a signed database gives back the database, when it starts with the X.509 GUID and the PKCS#7 blob does not hold that GUID |
| EfiSigning.SignedSigDbRecovers | lib/efi.py:180-243 | the list read out of a signed database of certificate files holds the loaded certificates, in order |
| EfiSigning.LastIndexOf | lib/efi.py:284-286 | the last position of a character, or none when it does not occur |
| EfiSigning.SplitExtJoin | lib/efi.py:284-286 | root and extension joined give the path back; a non-empty extension is a '.' followed by no other '.' or '/' |
| EfiSigning.SignedNameWithExtension | lib/efi.py:284-286 | a name with an extension signs to its root with "-signed", followed by the same extension |
| EfiSigning.SignedNameWithoutExtension | lib/efi.py:284-286 | a name without an extension just gains "-signed" and still has no extension |
| EfiSigning.SignedNameKeepsExtension | lib/efi.py:284-286 | the signed name keeps the original extension, and its root is the original root with "-signed" |
| EfiAuthState.Clock.constructor | lib/efi.py:66-67 | the seed is fixed at import and the offset starts at 1 |
| EfiAuthState.Clock.Timestamp | lib/efi.py:278-281 | each call advances the offset by one second and returns a time strictly later than every time returned before |
| EfiAuthState.CertificateSignEfiSigDb | lib/efi.py:346-348 | signs the data with this certificate at the next timestamp, with the variable's name and GUID |
| EfiAuthState.SignatureListPaths | lib/efi.py:479-491 | the owner's public certificate first, when there is one, then each other certificate's file, in order |
| EfiAuthState.EfiAuth.constructor | lib/efi.py:366-381 | a handle on a secure-boot variable with its GUID and certificates, not yet signed |
| EfiAuthState.EfiAuth.SignWith | lib/efi.py:404-412 | stores the signed database made with the signer's owner certificate at the next timestamp; on an error nothing changes but the clock |
| EfiAuthState.EfiAuth.SignAuth | lib/efi.py:414-421 | signing another handle signs it with this handle's owner certificate |
| EfiAuthState.EfiAuth.Copy | lib/efi.py:446-477 | a new handle under the new name (or the old one), with the same certificates, signature list and authenticated data |
| EfiAuthState.EfiAuth.SignImage | lib/efi.py:423-444 | the signed image has the original's extension and its root with "-signed" |
| EfiAuthState.NewEfiAuth | lib/efi.py:366-381 | built exactly when the database of the owner's and other certificates is; it then holds that database, the given certificates and no signature; otherwise the first load error is raised |

## Left out

- SSH, SCP and subprocess transport. Remote commands either succeed or fail through the plane's fault set. Their outputs are inputs. The `ssh` function is kept only for its return-code rule (lib/common.py:48-75).
- Real time. `time.sleep` and the wall clock are not modelled. `wait_for` keeps its integer countdown and counts calls and sleeps. `timestamp()` counts seconds from a seed.
- LegacyCommon.WaitFor: requires a retry delay above zero. With a delay of zero or less the source's loop never ends once the predicate stays false.
- Cryptography and certificate files. The PKCS#7 signature is a function of the payload. X.509 loading (PEM or DER) is a `load` function that yields DER bytes. sbsign, pesign, openssl and certutil are not modelled, nor the temporary-file directory. `sign_image` is modelled only for the name it returns. `get_md5sum_from_auth` and `esl_from_auth_file` are not modelled: they are a hash and a file read around `esl_from_auth_bytes`.
- EfiAuthState.EfiAuth.Copy: the source builds the copy's signature list again from the copied certificate files and then overwrites it with the original's. The model takes the original's list directly and does not model the file copies.
- `Certificate.self_signed`, `EFIAuth.self_signed`, `owner_cert`, `auth_data` and `auth` are not modelled: they generate keys with openssl or only read a field behind an assertion.
- Python library semantics. `shlex.quote`, `packaging.version` and the MTRR line regular expression are left out. The quote is a parameter, release versions are given as number sequences, and MTRR ranges are given as parsed records.
- Helpers outside the modelled files are parameters without behaviour: `strip_suffix`, `prefix_object_name`, `shortened_nodeid`, `expand_scope_relative_nodeid`. The same goes for the dictionary that `parse_xe_dict` returns. lib/basevm.py, lib/pool.py and lib/pxe.py are not part of this model.
- Fixtures.HostsFixture.SetupHost: does not model the waits for the nested host to run, to appear in the ARP tables and to open SSH. It also leaves out the MAC read and the `Pool` object built for each address. The ARP answer is the `arp` parameter, and the host's address stands for the pool's master.
- Fixtures.HostsFixture.SetupHost: does not model the RuntimeError for a cache entry when no pytest configuration is passed; the fixture always passes it.
- Fixtures.DestroyEach: states what a successful destruction leaves. It does not say which injected faults make it fail.
- Fixtures.CreateVms.SetupVms: states that every new VM is tracked, not which VDIs are. The VDIs of a VM cloned from the cache are never in `vdis` in the source either; they go with their VM.
- Fixtures.CreateVms.SavePairs: on success, states the cached copy of the last (definition, VM) pair only. The earlier pairs' copies are not restated, although each call saves one.
- Fixtures.CreateVms.ExportVms: inherits the same limit from SavePairs. It is stated for the corrected export gate; the source's gate, which also exports after a skipped call, is Fixtures.SkippedCallExports.
- Fixtures.CreateVms.VmFromCache: is stated for the corrected clone, tracked as soon as it exists. The source's order, which leaks the clone when the description cannot be set, is Fixtures.CreateVms.CloneForTestAsWritten.
- Fixtures.CreateVms.SetupVms: "every VM that appears is tracked" holds for the corrected clone only; with the source's order a clone whose description fails is not tracked.
- Fixtures.CreateVmsFixture: is stated for the corrected fixture. With the source's clone order a VM can be left behind after a successful teardown, and with the source's gate VMs are exported after a skipped call; the two as-written members exhibit both.
- Fixtures.CreateVms.InstallVm: `vm-install` is modelled as creating a VM without disks whatever the template provisions. The template's own disks are not modelled.
- Fixtures.CreateVms.CreateVm: "the VM's disks are exactly the new tracked disks" holds only for templates without disks. With a template that provisions disks, the VM would also hold those untracked disks.
- HostHandle.CachedVmLookup: `xe vm-list` is modelled as listing VMs in creation order (ManagementPlane.VmsWithDescription), so the oldest fitting copy is the one returned. XAPI promises no order.
- The test body that runs between `create_vms`'s setup and teardown is not modelled. The phase reports it produces are an input.
- pytest plumbing is not modelled: markers, `callable_marker`, fixture scopes, the stash and the git revision. The reports and the revision are parameters.
- VmHandle.Vm.constructor: does not model the `is_windows` and `is_uefi` parameter reads of `VM.__init__`. They read the remote record and are not used by the modelled operations.
- In-guest checks of lib/vm.py are not modelled: Windows, the UEFI shell, secure-boot byte reads and background processes. Their outcomes are decided by the guest.
- Logging and the XO CLI are not modelled.
- Concurrent test runs racing on the image cache are not modelled. Every caller is sequential.

## Findings

| source | as written | input that shows it | evidently intended | confidence | as-written member | corrected member |
|---|---|---|---|---|---|---|
| conftest.py:571-575 | the export gate tests only `.failed` on the setup and call reports, and a skipped phase is not failed | setup passed and the call was skipped (`pytest.skip` in the test body): the VMs are exported to the cache | export only when setup and call both passed, as the log message "failed or skipped: not exporting VMs" says | medium, not executed | Fixtures.SkippedCallExports | Fixtures.ExportGate |
| conftest.py:640-646 | `_vm_from_cache` appends the clone to `vms` only after setting its description | the `param_set` of the description fails after the clone was made: the clone is not in `vms`, so teardown never destroys it | track the clone as soon as it exists, as `_create_vm` does right after `vm_from_template` | medium, not executed | Fixtures.CreateVms.CloneForTestAsWritten | Fixtures.CreateVms.CloneForTest |
| conftest.py:467-480 | `imported_vm` decides teardown on whether `vm_ref` is a UUID, but clones whenever CACHE_IMPORTED_VM is set | `vm_ref` is the UUID of an existing VM and CACHE_IMPORTED_VM is True: the clone made for the tests is never destroyed | destroy the VM the fixture made (the import or the clone) and keep a VM that existed before | medium, not executed | Fixtures.ImportedVmFixtureAsWritten | Fixtures.ImportedVmFixture |
