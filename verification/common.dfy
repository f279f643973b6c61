/**
  lib/common.py, the first generation of the harness's helpers: the polling
  loop `wait_for`, the return-code rule of `ssh`, `to_xapi_bool`, `vm_image`,
  and the early `Host`/`BaseVM`/`VM` handles, which talk to the host by
  sending `xe` command lines over SSH.  The host is a recorder of the command
  lines sent to it, answering the k-th with `replies(k)`; nothing is executed.
*/
module LegacyCommon {
  import opened Wrappers
  import opened Text

  // ---------------------------------------------------------------- vm_image, to_xapi_bool

  predicate StartsWith(s: string, p: string)
  {
    |p| <= |s| && s[..|p|] == p
  }

  /**
    `vm_image(vm_key)`: the URL of an image of `VM_IMAGES`; an entry not
    starting with "http" is a file name under `DEF_VM_URL`.  An unknown key
    raises KeyError.
  */
  function VmImage(key: string, images: map<string, string>, defUrl: string): (r: Result<string>)
    ensures r.Err? <==> key !in images
    ensures r.Ok? ==> |images[key]| <= |r.value| && r.value[|r.value| - |images[key]|..] == images[key]
    ensures r.Ok? && StartsWith(images[key], "http") ==> r.value == images[key]
    ensures r.Ok? && (StartsWith(images[key], "http") || StartsWith(defUrl, "http")) ==> StartsWith(r.value, "http")
  {
    if key !in images then Err("KeyError: " + Repr(key))
    else
      var url := images[key];
      if StartsWith(url, "http") then Ok(url)
      else
        assert (defUrl + url)[..|defUrl|] == defUrl;
        assert (defUrl + url)[|defUrl|..] == url;
        Ok(defUrl + url)
  }

  /** Resolving an image URL once more changes nothing when the default location is itself a URL. */
  lemma VmImageIdempotent(key: string, images: map<string, string>, defUrl: string)
    requires StartsWith(defUrl, "http")
    requires VmImage(key, images, defUrl).Ok?
    ensures VmImage(key, images[key := VmImage(key, images, defUrl).value], defUrl) == VmImage(key, images, defUrl)
  {
  }

  /** `to_xapi_bool(b)`: XAPI's spelling of a truth value. */
  function ToXapiBool(b: bool): (r: string)
    ensures r == "true" <==> b
    ensures r == "false" <==> !b
  {
    if b then "true" else "false"
  }

  // ---------------------------------------------------------------- wait_for

  /** The exception text of a `wait_for` that ran out of time. */
  function TimeoutMessage(invert: bool, timeout: int): string
  {
    "Timeout reached while waiting for fn call to yield " + (if invert then "False" else "True")
      + " (" + IntToString(timeout) + ")."
  }

  /** Call number `k` ends the wait: its result is truthy, or falsy when `invert`. */
  predicate Satisfied(fn: nat -> bool, invert: bool, k: nat)
  {
    fn(k) != invert
  }

  /**
    The rest of a wait from call number `k` with `timeLeft` seconds left: the
    outcome and the number of calls made in all.  `fn(k)` is the truthiness of
    the k-th call of the predicate.
  */
  function WaitFrom(fn: nat -> bool, invert: bool, k: nat, timeLeft: int, delay: int, timeout: int): (r: (Result<()>, nat))
    requires delay > 0
    ensures r.1 > k
    decreases if timeLeft > 0 then timeLeft else 0
  {
    if Satisfied(fn, invert, k) then (Ok(()), k + 1)
    else if timeLeft - delay <= 0 then (Err(TimeoutMessage(invert, timeout)), k + 1)
    else WaitFrom(fn, invert, k + 1, timeLeft - delay, delay, timeout)
  }

  /** `wait_for(fn, timeout_secs=timeout, retry_delay_secs=delay, invert=invert)`: outcome and number of calls. */
  function Wait(fn: nat -> bool, invert: bool, timeout: int, delay: int): (Result<()>, nat)
    requires delay > 0
  {
    WaitFrom(fn, invert, 0, timeout, delay, timeout)
  }

  /**
    The polling loop: call, return as soon as the call is satisfied, otherwise
    count the delay off the time left, raise once none is left, and sleep.
    `sleeps` counts the `time.sleep` calls.
  */
  method WaitFor(fn: nat -> bool, timeout: int, delay: int, invert: bool) returns (r: Result<()>, calls: nat, sleeps: nat)
    requires delay > 0
    ensures (r, calls) == Wait(fn, invert, timeout, delay)
    ensures calls >= 1 && sleeps == calls - 1
  {
    var timeLeft := timeout;
    calls, sleeps := 0, 0;
    while true
      invariant sleeps == calls
      invariant calls > 0 ==> timeLeft > 0
      invariant Wait(fn, invert, timeout, delay) == WaitFrom(fn, invert, calls, timeLeft, delay, timeout)
      decreases if timeLeft > 0 then timeLeft else 0, if calls == 0 then 1 else 0
    {
      var ret := fn(calls);
      calls := calls + 1;
      if ret != invert {
        r := Ok(());
        return;
      }
      timeLeft := timeLeft - delay;
      if timeLeft <= 0 {
        r := Err(TimeoutMessage(invert, timeout));
        return;
      }
      sleeps := sleeps + 1;
    }
  }

  /** `wait_for_not(fn, ...)`: `wait_for` with `invert=True`. */
  method WaitForNot(fn: nat -> bool, timeout: int, delay: int) returns (r: Result<()>, calls: nat, sleeps: nat)
    requires delay > 0
    ensures (r, calls) == Wait(fn, true, timeout, delay)
    ensures calls >= 1 && sleeps == calls - 1
  {
    r, calls, sleeps := WaitFor(fn, timeout, delay, true);
  }

  /**
    A wait ends right after the first satisfied call: it succeeds exactly when
    its last call is satisfied, and no earlier call was.
  */
  lemma {:induction false} WaitStopsAtFirst(fn: nat -> bool, invert: bool, k: nat, timeLeft: int, delay: int, timeout: int)
    requires delay > 0
    requires forall j :: 0 <= j < k ==> !Satisfied(fn, invert, j)
    ensures var (r, calls) := WaitFrom(fn, invert, k, timeLeft, delay, timeout);
            && (forall j :: 0 <= j < calls - 1 ==> !Satisfied(fn, invert, j))
            && (r.Ok? <==> Satisfied(fn, invert, calls - 1))
            && (r.Err? ==> r.msg == TimeoutMessage(invert, timeout))
    decreases if timeLeft > 0 then timeLeft else 0
  {
    if !Satisfied(fn, invert, k) && timeLeft - delay > 0 {
      WaitStopsAtFirst(fn, invert, k + 1, timeLeft - delay, delay, timeout);
    }
  }

  /** How many calls a never-satisfied wait makes with `timeLeft` seconds left. */
  function MaxCalls(timeLeft: int, delay: int): (n: nat)
    requires delay > 0
    ensures n >= 1
    decreases if timeLeft > 0 then timeLeft else 0
  {
    if timeLeft - delay <= 0 then 1 else 1 + MaxCalls(timeLeft - delay, delay)
  }

  /** A wait whose calls are never satisfied raises after `MaxCalls` calls. */
  lemma {:induction false} NeverSatisfiedFrom(fn: nat -> bool, invert: bool, k: nat, timeLeft: int, delay: int, timeout: int)
    requires delay > 0
    requires forall j :: !Satisfied(fn, invert, j)
    ensures WaitFrom(fn, invert, k, timeLeft, delay, timeout) == (Err(TimeoutMessage(invert, timeout)), k + MaxCalls(timeLeft, delay))
    decreases if timeLeft > 0 then timeLeft else 0
  {
    if timeLeft - delay > 0 {
      NeverSatisfiedFrom(fn, invert, k + 1, timeLeft - delay, delay, timeout);
    }
  }

  /** `MaxCalls` is max(1, ceil(timeout / delay)). */
  lemma {:induction false} MaxCallsIsCeiling(timeLeft: int, delay: int)
    requires delay > 0
    ensures MaxCalls(timeLeft, delay) == if timeLeft <= 0 then 1 else (timeLeft + delay - 1) / delay
    decreases if timeLeft > 0 then timeLeft else 0
  {
    if timeLeft - delay > 0 {
      MaxCallsIsCeiling(timeLeft - delay, delay);
      DivShift(timeLeft - 1, delay);
    } else if timeLeft > 0 {
      DivOne(timeLeft + delay - 1, delay);
    }
  }

  /** Euclidean division is determined by a quotient and a remainder in range. */
  lemma DivUnique(x: int, d: int, q: int, m: int)
    requires d > 0 && 0 <= m < d && x == q * d + m
    ensures x / d == q
  {
    var q2, m2 := x / d, x % d;
    assert x == q2 * d + m2 && 0 <= m2 < d;
    assert (q2 - q) * d == m - m2;
    if q2 > q {
      MulAtLeast(q2 - q, d);
    } else if q2 < q {
      MulAtLeast(q - q2, d);
    }
  }

  lemma MulAtLeast(a: int, d: int)
    requires a >= 1 && d > 0
    ensures a * d >= d
  {
    assert a * d == (a - 1) * d + d;
  }

  lemma DivShift(x: int, d: int)
    requires x >= 0 && d > 0
    ensures (x + d) / d == x / d + 1
  {
    DivUnique(x, d, x / d, x % d);
    DivUnique(x + d, d, x / d + 1, x % d);
  }

  lemma DivOne(x: int, d: int)
    requires d > 0 && d <= x < 2 * d
    ensures x / d == 1
  {
    DivUnique(x, d, 1, x - d);
  }

  /** With the defaults' shape: a timeout of 4 and a delay of 2 give exactly 2 calls, then the exception. */
  lemma NeverSatisfiedFourByTwo(fn: nat -> bool, invert: bool)
    requires forall j :: !Satisfied(fn, invert, j)
    ensures Wait(fn, invert, 4, 2) == (Err(TimeoutMessage(invert, 4)), 2)
  {
    NeverSatisfiedFrom(fn, invert, 0, 4, 2, 4);
    assert MaxCalls(4, 2) == 1 + MaxCalls(2, 2);
  }

  // ---------------------------------------------------------------- subprocess and ssh

  /** What a process gave back: its return code and its combined stdout and stderr. */
  datatype Reply = Reply(rc: int, output: string)

  datatype Exc = CalledProcessError(returncode: int, output: string) | SshException(message: string)

  /** A Python call that returns a value or raises one of the exceptions above. */
  datatype Outcome<+T> = Returned(value: T) | Raised(exc: Exc)

  /** `.stdout.decode().strip()`. */
  function Output(reply: Reply): string
  {
    Strip(reply.output, Whitespace)
  }

  /** `subprocess.run(..., check=check)` followed by `.stdout.decode().strip()`. */
  function RunOutcome(reply: Reply, check: bool): (r: Outcome<string>)
    ensures r.Raised? <==> check && reply.rc != 0
    ensures r.Raised? ==> r.exc == CalledProcessError(reply.rc, reply.output)
    ensures r.Returned? ==> r.value == Output(reply)
  {
    if check && reply.rc != 0 then Raised(CalledProcessError(reply.rc, reply.output))
    else Returned(Output(reply))
  }

  /**
    `ssh(host, cmd, check)` with simple output: the process's own check comes
    first, then return code 255 (an SSH failure) raises SSHException even when
    the caller did not ask for a check.
  */
  function SshOutcome(reply: Reply, check: bool): (r: Outcome<string>)
    ensures r.Raised? <==> (check && reply.rc != 0) || reply.rc == 255
    ensures r.Raised? && r.exc.SshException? <==> !check && reply.rc == 255
    ensures r.Raised? && r.exc.CalledProcessError? ==> r.exc == CalledProcessError(reply.rc, reply.output)
    ensures r.Returned? ==> r == RunOutcome(reply, check)
  {
    var res := RunOutcome(reply, check);
    if res.Raised? then res
    else if reply.rc == 255 then Raised(SshException("SSH Error: " + reply.output))
    else res
  }

  /** A checked call: any nonzero return code raises CalledProcessError, 255 included. */
  function Checked(reply: Reply): Outcome<string>
  {
    if reply.rc != 0 then Raised(CalledProcessError(reply.rc, reply.output)) else Returned(Output(reply))
  }

  /** With a check, the SSH rule never comes into play: the process's own check has raised first. */
  lemma SshCheckedIsChecked(reply: Reply)
    ensures SshOutcome(reply, true) == Checked(reply)
  {
  }

  /** Without a check, `ssh` raises exactly on return code 255, and then SSHException. */
  lemma SshUncheckedRaisesOn255(reply: Reply)
    ensures SshOutcome(reply, false).Raised? <==> reply.rc == 255
    ensures SshOutcome(reply, false).Raised? ==> SshOutcome(reply, false).exc == SshException("SSH Error: " + reply.output)
  {
  }

  // ---------------------------------------------------------------- xe command lines

  /** A command line, one string per word. */
  type Line = seq<string>

  /** One `Host.xe(action, args, minimal=minimal)` call: the action, the arguments in order, and `--minimal`. */
  datatype XeCall = XeCall(action: string, args: seq<(string, string)>, minimal: bool)

  /** The command line of an `xe` call: `xe`, the action, `--minimal` if asked, then one `key=value` per argument. */
  function XeLine(c: XeCall): (r: Line)
    ensures |r| == 2 + (if c.minimal then 1 else 0) + |c.args|
    ensures r[0] == "xe" && r[1] == c.action && (c.minimal ==> r[2] == "--minimal")
  {
    ["xe", c.action] + (if c.minimal then ["--minimal"] else [])
      + seq(|c.args|, i requires 0 <= i < |c.args| => c.args[i].0 + "=" + c.args[i].1)
  }

  /** Each argument word splits back at its first '=' into its key and value, when the key has no '='. */
  lemma XeLineArgs(c: XeCall, i: nat)
    requires i < |c.args| && '=' !in c.args[i].0
    ensures var off := if c.minimal then 3 else 2;
            SplitOnce(XeLine(c)[off + i], '=') == Ok(c.args[i])
  {
    var off := if c.minimal then 3 else 2;
    var w := XeLine(c)[off + i];
    assert w == c.args[i].0 + ['='] + c.args[i].1;
    SplitOnceOf(c.args[i].0, c.args[i].1);
  }

  lemma SplitOnceOf(k: string, v: string)
    requires '=' !in k
    ensures SplitOnce(k + ['='] + v, '=') == Ok((k, v))
  {
    var s := k + ['='] + v;
    var r := SplitOnce(s, '=');
    assert s[|k|] == '=';
    var a := r.value.0;
    assert |a| <= |k|;
    assert a == k;
    assert r.value.1 == s[|k| + 1..];
  }

  // ---------------------------------------------------------------- the calls of the handles

  /** The `xe` calls the VM handle makes. */
  datatype Call =
    | GetParam(vm: string, param: string, key: Option<string>)
    | ListDisks(vm: string)
    | DestroyVdi(vdi: string)
    | DestroyVm(vm: string)
    | ShutdownVm(vm: string, force: bool)

  /** The `Host.xe(action, args, minimal=...)` call a handle call makes. */
  function ToXe(c: Call): (x: XeCall)
    ensures c.ListDisks? <==> x.minimal
  {
    match c
    case GetParam(vm, param, key) =>
      XeCall("vm-param-get", [("uuid", vm), ("param-name", param)] + (if key.Some? then [("param-key", key.value)] else []), false)
    case ListDisks(vm) => XeCall("vm-disk-list", [("uuid", vm)], true)
    case DestroyVdi(vdi) => XeCall("vdi-destroy", [("uuid", vdi)], false)
    case DestroyVm(vm) => XeCall("vm-destroy", [("uuid", vm)], false)
    case ShutdownVm(vm, force) => XeCall("vm-shutdown", [("uuid", vm), ("force", ToXapiBool(force))], false)
  }

  /** Different calls make different `xe` calls, so the command lines sent determine the calls made. */
  lemma ToXeInjective(c: Call, d: Call)
    requires ToXe(c) == ToXe(d)
    ensures c == d
  {
    var x, y := ToXe(c), ToXe(d);
    if c.GetParam? && d.GetParam? {
      assert x.args[0] == y.args[0] && x.args[1] == y.args[1];
      if c.key.Some? {
        assert |y.args| == 3 && x.args[2] == y.args[2];
      } else {
        assert |y.args| == 2;
      }
    } else if c.ShutdownVm? && d.ShutdownVm? {
      assert x.args[0] == y.args[0] && x.args[1] == y.args[1];
    } else if c.GetParam? || d.GetParam? || c.ShutdownVm? || d.ShutdownVm? {
      assert false;
    } else {
      assert x.action == y.action && x.args[0] == y.args[0];
    }
  }

  // ---------------------------------------------------------------- the host

  /** The early `Host`: its address, its `uuid` once initialised, and the `xe` calls sent to it over SSH. */
  class LegacyHost {
    const address: string
    var uuid: Option<string>
    /** The reply to the k-th command sent to this host. */
    const replies: nat -> Reply
    /** The handle calls made, and the command lines sent over SSH for them. */
    var sent: seq<Call>
    var lines: seq<Line>

    constructor (address: string, replies: nat -> Reply)
      ensures this.address == address && this.replies == replies && uuid.None? && sent == [] && lines == []
    {
      this.address := address;
      this.replies := replies;
      uuid := None;
      sent := [];
      lines := [];
    }

    /** `Host.xe(...)` of a call: `ssh` of the command line `XeLine(ToXe(c))`, checked. */
    method Xe(c: Call) returns (r: Outcome<string>)
      modifies this
      ensures sent == old(sent) + [c] && uuid == old(uuid)
      ensures lines == old(lines) + [XeLine(ToXe(c))]
      ensures r == Checked(replies(|old(sent)|))
    {
      SshCheckedIsChecked(replies(|sent|));
      r := SshOutcome(replies(|sent|), true);
      sent := sent + [c];
      lines := lines + [XeLine(ToXe(c))];
    }
  }

  /** The error `xe vm-param-get` prints for a missing map key, which `param_get` may turn into None. */
  predicate UnknownKey(e: Exc, key: Option<string>, accept: bool)
  {
    key.Some? && key.value != "" && accept && e.CalledProcessError?
    && Strip(e.output, Whitespace) == "Error: Key " + key.value + " not found in map"
  }

  /** The text before the first ',' of a line of `vm-disk-list --minimal` output. */
  function FirstField(line: string): (f: string)
    ensures ',' !in f && |f| <= |line| && line[..|f|] == f
    ensures |f| == |line| || line[|f|] == ','
  {
    FirstPiece(line);
    Split(line, ',')[0]
  }

  lemma FirstPiece(line: string)
    ensures var f := Split(line, ',')[0];
            |f| <= |line| && line[..|f|] == f && (|f| == |line| || line[|f|] == ',')
  {
    var parts := Split(line, ',');
    JoinSplit(line, ',');
    if |parts| > 1 {
      assert Join(parts, ',') == parts[0] + [','] + Join(parts[1..], ',');
      assert line[..|parts[0]|] == parts[0];
    }
  }

  /** The VDIs `vdi_uuids` reads off a disk listing: one per line, in order. */
  function FirstFields(lines: seq<string>): (r: seq<string>)
    ensures |r| == |lines| && forall i :: 0 <= i < |lines| ==> r[i] == FirstField(lines[i])
  {
    seq(|lines|, i requires 0 <= i < |lines| => FirstField(lines[i]))
  }

  /** The reply to command number `k` of a checked `xe` call raised. */
  predicate Fails(replies: nat -> Reply, k: nat)
  {
    replies(k).rc != 0
  }

  /**
    Sending `n` checked commands from command number `k` until one raises: how
    many were sent, and the outcome.
  */
  function RunCount(replies: nat -> Reply, k: nat, n: nat): (r: (nat, Outcome<()>))
    ensures r.0 <= n
    ensures r.1.Returned? <==> forall j :: k <= j < k + n ==> !Fails(replies, j)
    ensures r.1.Returned? ==> r == (n, Returned(()))
    ensures r.1.Raised? ==> r.0 >= 1 && Fails(replies, k + r.0 - 1)
                            && r.1.exc == CalledProcessError(replies(k + r.0 - 1).rc, replies(k + r.0 - 1).output)
                            && forall j :: k <= j < k + r.0 - 1 ==> !Fails(replies, j)
    decreases n
  {
    if n == 0 then (0, Returned(()))
    else if Fails(replies, k) then (1, Raised(CalledProcessError(replies(k).rc, replies(k).output)))
    else
      var t := RunCount(replies, k + 1, n - 1);
      (1 + t.0, t.1)
  }

  /** A run stops at its first failing command, and reports it. */
  lemma RunCountStopsAt(replies: nat -> Reply, k: nat, n: nat, i: nat)
    requires i < n && Fails(replies, k + i)
    requires forall j :: k <= j < k + i ==> !Fails(replies, j)
    ensures RunCount(replies, k, n) == (i + 1, Raised(CalledProcessError(replies(k + i).rc, replies(k + i).output)))
  {
  }

  /** A run in which no command fails sends them all and returns. */
  lemma RunCountAll(replies: nat -> Reply, k: nat, n: nat)
    requires forall j :: k <= j < k + n ==> !Fails(replies, j)
    ensures RunCount(replies, k, n) == (n, Returned(()))
  {
  }

  /** `destroy_vdi` of each VDI, in order. */
  function VdiDestroys(vdis: seq<string>): (p: seq<Call>)
    ensures |p| == |vdis|
  {
    if vdis == [] then [] else VdiDestroys(vdis[..|vdis| - 1]) + [DestroyVdi(vdis[|vdis| - 1])]
  }

  lemma VdiDestroysSnoc(vdis: seq<string>, i: nat)
    requires i < |vdis|
    ensures VdiDestroys(vdis[..i + 1]) == VdiDestroys(vdis[..i]) + [DestroyVdi(vdis[i])]
  {
    assert vdis[..i + 1][..i] == vdis[..i];
  }

  /** The i-th call destroys the i-th VDI. */
  lemma {:induction false} VdiDestroysAt(vdis: seq<string>, i: nat)
    requires i < |vdis|
    ensures VdiDestroys(vdis)[i] == DestroyVdi(vdis[i])
    decreases |vdis|
  {
    if i < |vdis| - 1 {
      VdiDestroysAt(vdis[..|vdis| - 1], i);
    }
  }

  /** Destroying the first n VDIs sends the first n calls of destroying them all. */
  lemma VdiDestroysPrefix(vdis: seq<string>, n: nat)
    requires n <= |vdis|
    ensures VdiDestroys(vdis[..n]) == VdiDestroys(vdis)[..n]
  {
    forall i | 0 <= i < n
      ensures VdiDestroys(vdis[..n])[i] == VdiDestroys(vdis)[i]
    {
      VdiDestroysAt(vdis[..n], i);
      VdiDestroysAt(vdis, i);
    }
  }

  lemma AppendAssoc<T>(a: seq<T>, b: seq<T>, c: seq<T>)
    ensures (a + b) + c == a + (b + c)
  {
  }

  /** The VDIs a disk listing names. */
  function ListedVdis(listing: string): seq<string>
  {
    FirstFields(SplitLines(listing))
  }

  /**
    The rest of `BaseVM.destroy` once the disks are listed: destroying `vdis`
    from command number `k` on, then the VM record; the calls sent and the
    outcome.
  */
  function DestroyListed(uuid: string, vdis: seq<string>, replies: nat -> Reply, k: nat): (seq<Call>, Outcome<()>)
  {
    var (n, res) := RunCount(replies, k, |vdis|);
    if res.Raised? then (VdiDestroys(vdis[..n]), res)
    else
      var last := k + |vdis|;
      (VdiDestroys(vdis) + [DestroyVm(uuid)],
       if Fails(replies, last) then Raised(CalledProcessError(replies(last).rc, replies(last).output)) else Returned(()))
  }

  /**
    `BaseVM.destroy` from command number `k`: the calls sent after the disk
    listing, and the outcome.
  */
  function BaseDestroySpec(uuid: string, replies: nat -> Reply, k: nat): (seq<Call>, Outcome<()>)
  {
    if Fails(replies, k) then ([], Raised(CalledProcessError(replies(k).rc, replies(k).output)))
    else DestroyListed(uuid, ListedVdis(Output(replies(k))), replies, k + 1)
  }

  /**
    `VM.destroy` once the power state `state` is read, from command number `k`:
    a forced shutdown unless halted, then `BaseVM.destroy`.
  */
  function DestroyInState(uuid: string, state: string, replies: nat -> Reply, k: nat): (seq<Call>, Outcome<()>)
  {
    var stop := state != "halted";
    if stop && Fails(replies, k) then ([ShutdownVm(uuid, true)], Raised(CalledProcessError(replies(k).rc, replies(k).output)))
    else
      var (calls, res) := BaseDestroySpec(uuid, replies, if stop then k + 1 else k);
      ((if stop then [ShutdownVm(uuid, true)] else []) + [ListDisks(uuid)] + calls, res)
  }

  /** Past a shutdown that did not fail, `VM.destroy` goes on as `BaseVM.destroy`. */
  lemma DestroyInStateRest(uuid: string, state: string, replies: nat -> Reply, k: nat)
    requires !(state != "halted" && Fails(replies, k))
    ensures var stopped := if state != "halted" then [ShutdownVm(uuid, true)] else [];
            var rest := BaseDestroySpec(uuid, replies, k + |stopped|);
            DestroyInState(uuid, state, replies, k) == (stopped + [ListDisks(uuid)] + rest.0, rest.1)
  {
  }

  /** `VM.destroy` from command number `k`: the power-state query, then the rest in the state it read. */
  function VmDestroySpec(uuid: string, replies: nat -> Reply, k: nat): (seq<Call>, Outcome<()>)
  {
    var query := GetParam(uuid, "power-state", None);
    if Fails(replies, k) then ([query], Raised(CalledProcessError(replies(k).rc, replies(k).output)))
    else
      var (calls, res) := DestroyInState(uuid, Output(replies(k)), replies, k + 1);
      ([query] + calls, res)
  }

  /**
    `BaseVM.destroy` destroys the listed VDIs in order and then the VM record;
    it succeeds exactly when the listing and every destroy succeed, and the
    record's destroy is sent last, only once every VDI destroy has succeeded.
  */
  lemma BaseDestroyOrder(uuid: string, replies: nat -> Reply, k: nat)
    ensures var (calls, res) := BaseDestroySpec(uuid, replies, k);
            && (Fails(replies, k) ==> calls == [] && res.Raised?)
            && (!Fails(replies, k) ==>
                  var vdis := ListedVdis(Output(replies(k)));
                  var plan := VdiDestroys(vdis) + [DestroyVm(uuid)];
                  && |calls| <= |plan| && calls == plan[..|calls|]
                  && (res.Returned? <==> forall j :: k <= j <= k + 1 + |vdis| ==> !Fails(replies, j))
                  && (DestroyVm(uuid) in calls ==>
                        calls == plan && forall j :: k <= j < k + 1 + |vdis| ==> !Fails(replies, j)))
  {
    if !Fails(replies, k) {
      DestroyListedOrder(uuid, ListedVdis(Output(replies(k))), replies, k + 1);
    }
  }

  /** The same, once the listing has named `vdis`. */
  lemma DestroyListedOrder(uuid: string, vdis: seq<string>, replies: nat -> Reply, k: nat)
    ensures var (calls, res) := DestroyListed(uuid, vdis, replies, k);
            var plan := VdiDestroys(vdis) + [DestroyVm(uuid)];
            && |calls| <= |plan| && calls == plan[..|calls|]
            && (res.Returned? <==> forall j :: k <= j <= k + |vdis| ==> !Fails(replies, j))
            && (DestroyVm(uuid) in calls ==> calls == plan && forall j :: k <= j < k + |vdis| ==> !Fails(replies, j))
  {
    var plan := VdiDestroys(vdis) + [DestroyVm(uuid)];
    var (n, res) := RunCount(replies, k, |vdis|);
    if res.Raised? {
      var calls := VdiDestroys(vdis[..n]);
      VdiDestroysPrefix(vdis, n);
      assert calls == plan[..n];
      if DestroyVm(uuid) in calls {
        var j :| 0 <= j < n && calls[j] == DestroyVm(uuid);
        VdiDestroysAt(vdis, j);
        assert false;
      }
    } else {
      assert plan[..|plan|] == plan;
    }
  }

  /** `VM.destroy` forces a shutdown exactly when the power state it read is not "halted". */
  lemma VmDestroyShutsDownUnlessHalted(uuid: string, replies: nat -> Reply, k: nat)
    requires !Fails(replies, k)
    ensures var (calls, _) := VmDestroySpec(uuid, replies, k);
            && |calls| >= 2 && calls[0] == GetParam(uuid, "power-state", None)
            && (calls[1] == ShutdownVm(uuid, true) <==> Output(replies(k)) != "halted")
  {
  }

  // ---------------------------------------------------------------- the VM handle

  /** `VM(uuid, host)`: the host it lives on, the host it was migrated from, and its IP once known. */
  class LegacyVm {
    const uuid: string
    var host: LegacyHost
    var previousHost: Option<LegacyHost>
    var ip: Option<string>

    constructor (uuid: string, host: LegacyHost)
      ensures this.uuid == uuid && this.host == host && previousHost.None? && ip.None?
    {
      this.uuid := uuid;
      this.host := host;
      previousHost := None;
      ip := None;
    }

    /**
      `param_get(param, key, accept_unknown_key)`: the parameter's value; None
      only for a missing map key the caller accepts; any other failure raises.
    */
    method ParamGet(param: string, key: Option<string>, accept: bool) returns (r: Outcome<Option<string>>)
      modifies host
      ensures host.sent == old(host.sent) + [GetParam(uuid, param, key)] && host.uuid == old(host.uuid)
      ensures var out := Checked(host.replies(|old(host.sent)|));
              && (out.Returned? ==> r == Returned(Some(out.value)))
              && (out.Raised? && UnknownKey(out.exc, key, accept) ==> r == Returned(None))
              && (out.Raised? && !UnknownKey(out.exc, key, accept) ==> r == Raised(out.exc))
    {
      var out := host.Xe(GetParam(uuid, param, key));
      if out.Returned? {
        r := Returned(Some(out.value));
      } else if UnknownKey(out.exc, key, accept) {
        r := Returned(None);
      } else {
        r := Raised(out.exc);
      }
    }

    /** `vdi_uuids()`: one VDI per line of the VM's disk listing, the text before its first ','. */
    method VdiUuids() returns (r: Outcome<seq<string>>)
      modifies host
      ensures host.sent == old(host.sent) + [ListDisks(uuid)] && host.uuid == old(host.uuid)
      ensures var reply := host.replies(|old(host.sent)|);
              && (reply.rc != 0 ==> r == Raised(CalledProcessError(reply.rc, reply.output)))
              && (reply.rc == 0 ==> r == Returned(ListedVdis(Output(reply))))
    {
      var out := host.Xe(ListDisks(uuid));
      if out.Raised? {
        return Raised(out.exc);
      }
      var lines := SplitLines(out.value);
      var vdis: seq<string> := [];
      for i := 0 to |lines|
        invariant vdis == FirstFields(lines[..i])
      {
        vdis := vdis + [FirstField(lines[i])];
      }
      assert lines[..|lines|] == lines;
      r := Returned(vdis);
    }

    /** The loop of `BaseVM.destroy()`: `destroy_vdi` of each VDI in order, until one raises. */
    method DestroyVdis(vdis: seq<string>) returns (r: Outcome<()>)
      modifies host
      ensures host.uuid == old(host.uuid)
      ensures var (n, res) := RunCount(host.replies, |old(host.sent)|, |vdis|);
              host.sent == old(host.sent) + VdiDestroys(vdis[..n]) && r == res
    {
      var h, k, start := host, |host.sent|, host.sent;
      ghost var replies := h.replies;
      for i := 0 to |vdis|
        invariant h.sent == start + VdiDestroys(vdis[..i]) && |h.sent| == k + i && h.uuid == old(h.uuid)
        invariant forall j :: k <= j < k + i ==> !Fails(replies, j)
      {
        var out := h.Xe(DestroyVdi(vdis[i]));
        VdiDestroysSnoc(vdis, i);
        AppendAssoc(start, VdiDestroys(vdis[..i]), [DestroyVdi(vdis[i])]);
        if out.Raised? {
          RunCountStopsAt(replies, k, |vdis|, i);
          return Raised(out.exc);
        }
      }
      assert vdis[..|vdis|] == vdis;
      RunCountAll(replies, k, |vdis|);
      r := Returned(());
    }

    /** The VDI loop of `BaseVM.destroy()` and the record's destroy after it. */
    method DestroyAll(vdis: seq<string>) returns (r: Outcome<()>)
      modifies host
      ensures host.uuid == old(host.uuid)
      ensures var (calls, res) := DestroyListed(uuid, vdis, host.replies, |old(host.sent)|);
              host.sent == old(host.sent) + calls && r == res
    {
      var destroyed := DestroyVdis(vdis);
      if destroyed.Raised? {
        return destroyed;
      }
      assert vdis[..|vdis|] == vdis;
      var out := host.Xe(DestroyVm(uuid));
      if out.Raised? {
        return Raised(out.exc);
      }
      r := Returned(());
    }

    /** `BaseVM.destroy()`: destroy every VDI of the listing, in order, then the VM record; the first failure raises. */
    method BaseDestroy() returns (r: Outcome<()>)
      modifies host
      ensures host.uuid == old(host.uuid)
      ensures var (calls, res) := BaseDestroySpec(uuid, host.replies, |old(host.sent)|);
              host.sent == old(host.sent) + [ListDisks(uuid)] + calls && r == res
    {
      var vdis := VdiUuids();
      if vdis.Raised? {
        return Raised(vdis.exc);
      }
      r := DestroyAll(vdis.value);
    }

    /** `xe vm-shutdown force=true` of this VM, as `VM.destroy()` sends it. */
    method ForceShutdown() returns (r: Outcome<()>)
      modifies host
      ensures host.uuid == old(host.uuid) && host.sent == old(host.sent) + [ShutdownVm(uuid, true)]
      ensures r.Raised? <==> Fails(host.replies, |old(host.sent)|)
      ensures r.Raised? ==> r.exc == CalledProcessError(host.replies(|old(host.sent)|).rc, host.replies(|old(host.sent)|).output)
    {
      var out := host.Xe(ShutdownVm(uuid, true));
      if out.Raised? {
        return Raised(out.exc);
      }
      r := Returned(());
    }

    /** The rest of `VM.destroy()` once the power state `state` is read. */
    method DestroyInStateOf(state: string) returns (r: Outcome<()>)
      modifies host
      ensures host.uuid == old(host.uuid)
      ensures var (calls, res) := DestroyInState(uuid, state, host.replies, |old(host.sent)|);
              host.sent == old(host.sent) + calls && r == res
    {
      ghost var start := host.sent;
      ghost var stopped: seq<Call> := if state != "halted" then [ShutdownVm(uuid, true)] else [];
      if state != "halted" {
        var stop := ForceShutdown();
        if stop.Raised? {
          return stop;
        }
      }
      assert host.sent == start + stopped;
      DestroyInStateRest(uuid, state, host.replies, |start|);
      ghost var rest := BaseDestroySpec(uuid, host.replies, |host.sent|);
      r := BaseDestroy();
      AppendAssoc(start + stopped, [ListDisks(uuid)], rest.0);
      AppendAssoc(start, stopped, [ListDisks(uuid)] + rest.0);
      AppendAssoc(stopped, [ListDisks(uuid)], rest.0);
    }

    /** `VM.destroy()`: force a shutdown unless the VM is halted, then `BaseVM.destroy`. */
    method Destroy() returns (r: Outcome<()>)
      modifies host
      ensures host.uuid == old(host.uuid)
      ensures var (calls, res) := VmDestroySpec(uuid, host.replies, |old(host.sent)|);
              host.sent == old(host.sent) + calls && r == res
    {
      ghost var start := host.sent;
      var power := ParamGet("power-state", None, false);
      if power.Raised? {
        return Raised(power.exc);
      }
      ghost var rest := DestroyInState(uuid, power.value.value, host.replies, |host.sent|);
      assert power.value.value == Output(host.replies(|start|));
      r := DestroyInStateOf(power.value.value);
      AppendAssoc(start, [GetParam(uuid, "power-state", None)], rest.0);
    }

    /**
      `try_get_and_store_ip()`: reads the first network's IP, accepting a
      missing key; an empty or missing address leaves `ip` unchanged.
    */
    method TryGetAndStoreIp() returns (r: Outcome<bool>)
      modifies this, host
      ensures host == old(host) && previousHost == old(previousHost)
      ensures host.sent == old(host.sent) + [GetParam(uuid, "networks", Some("0/ip"))]
      ensures var out := Checked(host.replies(|old(host.sent)|));
              && (out.Returned? && out.value != "" ==> r == Returned(true) && ip == Some(out.value))
              && (out.Returned? && out.value == "" ==> r == Returned(false) && ip == old(ip))
              && (out.Raised? && UnknownKey(out.exc, Some("0/ip"), true) ==> r == Returned(false) && ip == old(ip))
              && (out.Raised? && !UnknownKey(out.exc, Some("0/ip"), true) ==> r == Raised(out.exc) && ip == old(ip))
    {
      var got := ParamGet("networks", Some("0/ip"), true);
      if got.Raised? {
        return Raised(got.exc);
      }
      if got.value.None? || got.value.value == "" {
        return Returned(false);
      }
      ip := got.value;
      r := Returned(true);
    }

    /**
      `migrate(target_host)`: `xo-cli vm.migrate` on the local machine, whose
      reply to a command line is `xo(line)`; on success the VM's host becomes
      the target and the old host becomes its previous host.
    */
    method Migrate(target: LegacyHost, xo: Line -> Reply) returns (r: Outcome<()>)
      modifies this
      ensures ip == old(ip)
      ensures var out := RunOutcome(xo(XoMigrateLine(uuid, target.uuid)), true);
              && (r.Raised? <==> out.Raised?)
              && (out.Raised? ==> r == Raised(out.exc) && host == old(host) && previousHost == old(previousHost))
              && (out.Returned? ==> host == target && previousHost == Some(old(host)))
    {
      var out := RunOutcome(xo(XoMigrateLine(uuid, target.uuid)), true);
      if out.Raised? {
        return Raised(out.exc);
      }
      var previous := host;
      host := target;
      previousHost := Some(previous);
      r := Returned(());
    }
  }

  /** Python's `"%s" % x` for a host UUID that may not be set yet. */
  function PyStr(s: Option<string>): string
  {
    if s.Some? then s.value else "None"
  }

  /** `xo_cli('vm.migrate', {'vm': uuid, 'targetHost': target_uuid})`. */
  function XoMigrateLine(uuid: string, target: Option<string>): Line
  {
    ["xo-cli", "vm.migrate", "vm=" + uuid, "targetHost=" + PyStr(target)]
  }
}
